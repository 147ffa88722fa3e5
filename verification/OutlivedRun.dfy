/** A run on which a cached balance outlives the stored one, so that a request below the floor is answered differently. */
module OutlivedRun {
  import opened Common
  import opened Types
  import opened Histories
  import opened Versions
  import opened Tables
  import opened Batches
  import opened ChainBlocks
  import opened ChainState
  import opened ChainNode
  import opened ChainRuns
  import opened Snapshots
  import opened Diffs
  import opened HeightCaches
  import opened DiffCoverage
  import opened Survivors
  import opened Node
  import opened Runs
  import opened Coherence

  lemma SliceAtOne(history: seq<nat>)
    requires Descending(history) && forall x :: x in history ==> x >= 1
    ensures Slice(history, 1, 1) == [1]
  {
    DropAboveIsNotAbove(history, 1);
    SliceIsSliced(history, 1, 1);
    var s := Slice(history, 1, 1);
    assert s[0] <= 1 && Descending(s);
    OnlyLastNotAbove(s, 1);
    assert s[|s| - 1] == HeadOption(NotAbove(NotAbove(history, 1), 1)).GetOr(1);
    if NotAbove(NotAbove(history, 1), 1) != [] {
      assert NotAbove(NotAbove(history, 1), 1)[0] in history;
    }
  }

  /** Up to block 1 only height 1 is asked for. */
  lemma PairsAtOne(db: Tables, chain: Chain, deltas: seq<Delta>, id: nat)
    requires Meant(db, chain, deltas)
    ensures BalancePairs(db.state, id, 1, 1) == [(1, 1)]
  {
    hide Stored, Slice;
    HistoryDescends(db, chain, EarthsBalance(id));
    HistoryDescends(db, chain, LeaseBalanceOf(id));
    SliceAtOne(HistoryOf(db.state.history, EarthsBalance(id)));
    SliceAtOne(HistoryOf(db.state.history, LeaseBalanceOf(id)));
  }

  /** An item that a block's difference touches is changed by the block, and only such an item. */
  lemma TouchedIsChanged(db: Tables, chain: Chain, deltas: seq<Delta>, height: nat, item: Item)
    requires Based(db, chain, deltas) && 1 <= height <= chain.Height()
    ensures |deltas| == chain.Height()
    ensures match KeyOf(db.addresses.addressId, item)
            case None => !Touches(deltas[height - 1].diff, item)
            case Some(key) => Touches(deltas[height - 1].diff, item) <==> IsChanged(chain.Upto(height).update, key)
  {
    hide Anchored, AllChangedKnown, Counted, Matched, RecordsDelta, KeyOf, Touches, RecordedBlock, ChangedKeys, IsChanged;
    var ids := db.addresses.addressId;
    MatchesUpto(chain, deltas, ids, height);
    UptoBelow(chain, height);
    var cut := chain.Upto(height);
    AnchoredIsRecorded(db, chain);
    MatchedItem(cut.changes, deltas[..height][height - 1].diff, ids, item);
    RecordedUpto(db.state, chain, height);
    match KeyOf(ids, item)
    case None =>
    case Some(key) => ChangedKeysAre(cut.update, key);
  }

  lemma {:induction false} RecordedUpto(s: State, chain: Chain, height: nat)
    requires Recorded(s, chain) && 1 <= height <= chain.Height()
    ensures chain.Upto(height).Grown? && chain.Upto(height).changes.Keys == ChangedKeys(chain.Upto(height).update)
  {
    hide RecordedBlock, ChangedKeys;
    if height < chain.Height() {
      RecordedUpto(s, chain.below, height);
    }
  }

  const BALANCE := BalanceOf(ISSUER, None)

  /** After block 1 the store answers with the genesis balance. */
  lemma FirstAnswer(db: Tables, chain: Chain, deltas: seq<Delta>)
    requires Faithful(db, chain, deltas) && chain.Height() == 1 && deltas == [GENESIS_DELTA]
    ensures ISSUER in db.addresses.addressId
    ensures SnapshotOf(db.state, db.addresses.addressId[ISSUER], (1, 1)) == BalanceSnapshot(1, 1000, 0, 0)
  {
    hide Anchored, Stored, Realized, Matched, RecordsDelta, AllChangedKnown, LatestValue, ValueAt;
    var ids := db.addresses.addressId;
    FoldIsValue(chain, deltas, ids, BALANCE);
    FoldIsValue(chain, deltas, ids, LeaseOf(ISSUER));
    assert Fold([], BALANCE) == None && Fold([], LeaseOf(ISSUER)) == None;
    FoldMore([], GENESIS_DELTA, [BALANCE, LeaseOf(ISSUER)], 0);
    FoldMore([], GENESIS_DELTA, [BALANCE, LeaseOf(ISSUER)], 1);
    assert [] + [GENESIS_DELTA] == [GENESIS_DELTA];
    AtOne(db, chain, EarthsBalance(ids[ISSUER]));
    AtOne(db, chain, LeaseBalanceOf(ids[ISSUER]));
    HeightOfStore(db, chain);
    PairInForce(db, chain, ids[ISSUER], 1);
  }

  lemma AtOne(db: Tables, chain: Chain, key: VersionKey)
    requires Stored(db, chain)
    ensures At(HistoryOf(db.state.history, key), 1) == 1
  {
    hide Stored;
    HistoryDescends(db, chain, key);
    var found := NotAbove(HistoryOf(db.state.history, key), 1);
    assert found != [] ==> found[0] in HistoryOf(db.state.history, key);
  }

  lemma KeysKept(db: Tables, chain: Chain, deltas: seq<Delta>, key: VersionKey)
    requires Faithful(db, chain, deltas)
    ensures Stored(db, chain) && Anchored(db, chain) && KeyKept(db, chain, key)
  {
    hide Stored, Anchored, KeyKept;
    StoredKeys(db, chain);
  }

  /** Once height 1 is pruned, the store answers with nothing. */
  lemma LaterAnswer(db: Tables, chain: Chain, deltas: seq<Delta>)
    requires Faithful(db, chain, deltas) && chain.Height() >= 1 && deltas[0] == GENESIS_DELTA
    requires ISSUER in db.addresses.addressId && 1 !in HistoryOf(db.state.history, EarthsBalance(db.addresses.addressId[ISSUER]))
    ensures SnapshotOf(db.state, db.addresses.addressId[ISSUER], (1, 1)) == BalanceSnapshot(1, 0, 0, 0)
  {
    hide Based, Stored, Anchored, IsChanged;
    var id := db.addresses.addressId[ISSUER];
    KeptValue(db, chain, EarthsBalance(id), 1);
    KeptValue(db, chain, LeaseBalanceOf(id), 1);
    KeysKept(db, chain, deltas, LeaseBalanceOf(id));
    TouchedIsChanged(db, chain, deltas, 1, LeaseOf(ISSUER));
    HistoryIsChanges(db, chain, LeaseBalanceOf(id), 1);
    assert !Touches(GENESIS_DELTA.diff, LeaseOf(ISSUER));
  }

  /** The issuer pays 10 to the payee. */
  function PayDelta(tx: Transaction): Delta {
    Delta(EMPTY_DIFF.(transactions := map[tx.id := (tx, {ISSUER, PAYEE})], portfolios := map[ISSUER := Coins(-10), PAYEE := Coins(10)]), 0)
  }

  /** Changing the balance 1000 blocks and the rollback depth after height 2, at which it was changed, prunes height 1. */
  lemma PrunedNow(db: Tables, chain: Chain, deltas: seq<Delta>, u: Update, maxRollbackDepth: nat, id: nat)
    requires Faithful(db, chain, deltas) && Acceptable(db, u) && chain.Height() == 1001 + maxRollbackDepth && db.blocks.safeRollbackHeight == 1001
    requires IsChanged(chain.Upto(2).update, EarthsBalance(id)) && IsChanged(u, EarthsBalance(id))
    ensures 1 !in HistoryOf(After(db, u, maxRollbackDepth).state.history, EarthsBalance(id))
  {
    hide Based, Stored, Anchored, KeyKept, Acceptable, After, IsChanged, ChangesOf, ChangedKeys, InForce, Updated, NotAbove;
    var key := EarthsBalance(id);
    var history := HistoryOf(db.state.history, key);
    HeightOfStore(db, chain);
    KeysKept(db, chain, deltas, key);
    AfterFields(db, u, maxRollbackDepth);
    ChangedKeysAre(u, key);
    KeptDescends(db, chain, key);
    HistoryIsChanges(db, chain, key, 2);
    InForceIsLargest(history, 2, 2);
    UpdatedMembers(history, 1002 + maxRollbackDepth, 2, 1);
  }

  const PAY_TX := Transaction([14], 4, 0, Transfer)
  const PAY_MORE_TX := Transaction([15], 4, 0, Transfer)

  lemma Paying(tx: Transaction)
    ensures var diff := PayDelta(tx).diff; diff.transactions.Keys == {tx.id} && diff.scripts == map[] && diff.accountData == map[]
    ensures PayDelta(tx) == Delta(PayDelta(tx).diff, 0) && Touches(PayDelta(tx).diff, BALANCE)
  {
  }

  const GENESIS_SNAPSHOT := BalanceSnapshot(1, 1000, 0, 0)

  ghost predicate GenesisCached(c: CacheTables, id: nat) {
    Lookup(c.balanceAt, (1, id)) == Some(1000) && Lookup(c.leaseAt, (1, id)) == Some(NO_LEASES)
  }

  lemma NowCached(first: CacheTables, c: CacheTables, s: State, id: nat)
    requires ReadThrough(first, s, id, [(1, 1)], [GENESIS_SNAPSHOT]) && AnswerAlike(c, first, s) && AllCached(c, id, [(1, 1)])
    ensures GenesisCached(c, id)
  {
    hide AmountOf, LeasesOf;
    assert (1, 1) in [(1, 1)];
    assert [(1, 1)][0] == (1, 1) && [GENESIS_SNAPSHOT][0] == SnapshotThrough(first, s, id, (1, 1));
    assert BalanceThrough(c, s, id, 1) == BalanceThrough(first, s, id, 1) == 1000;
    assert LeasesThrough(c, s, id, 1) == LeasesThrough(first, s, id, 1) == NO_LEASES;
  }

  lemma AnsweredFromCache(c: CacheTables, s: State, id: nat, r: seq<BalanceSnapshot>)
    requires GenesisCached(c, id) && ReadThrough(c, s, id, [(1, 1)], r)
    ensures r == [GENESIS_SNAPSHOT]
  {
    assert r[0] == SnapshotThrough(c, s, id, (1, 1));
  }

  lemma StoredSnapshots(db: Tables, id: nat, block: Id)
    requires Lookup(db.addresses.addressId, ISSUER) == Some(id) && Lookup(db.blocks.stored.heightOf, block) == Some(1)
    requires BalancePairs(db.state, id, 1, 1) == [(1, 1)]
    ensures BalanceSnapshots(db, ISSUER, 1, block) == [SnapshotOf(db.state, id, (1, 1))]
  {
    hide SnapshotOf;
  }

  /** A store after block 1, whose snapshots have been asked for. */
  method AskFirst(maxRollbackDepth: nat) returns (store: LevelDBWriter, id: nat, first: seq<BalanceSnapshot>)
    ensures fresh(store) && store.Valid() && ShortIds(store.chain) && store.maxRollbackDepth == maxRollbackDepth
    ensures store.deltas == [GENESIS_DELTA] && store.chain.Height() == 1 && store.db.blocks.safeRollbackHeight == Higher(0, 1 - maxRollbackDepth)
    ensures AllTransactionIds(store.chain) == {[10]} && store.chain.Upto(1).Grown? && store.chain.Upto(1).Block() == BlockOf(1, [GENESIS_TX])
    ensures Lookup(store.db.addresses.addressId, ISSUER) == Some(id) && GenesisCached(store.caches, id)
    ensures first == [GENESIS_SNAPSHOT]
  {
    hide Based, Meant, Stored, HeightsCoherent, Coherent, LoadCurrent, AppliedWhereReady, Ready, BlockIds, AllTransactionIds, ShortIds, BalancePairs, Outlived,
      ReadThrough, AnswerAlike, AllCached, BalanceSnapshots, SnapshotOf, GenesisCached;
    store := Open(maxRollbackDepth, GENESIS_DELTA.diff, GENESIS_TX);
    FirstAnswer(store.db, store.chain, store.deltas);
    id := store.db.addresses.addressId[ISSUER];
    PairsAtOne(store.db, store.chain, store.deltas, id);
    TargetIsKnown(store.db, store.chain, store.deltas, 1);
    MeantIsStored(store.db, store.chain, store.deltas);
    NothingOutlived(store.caches, store.db, store.chain, id, 1, 1);
    var block := BlockOf(1, []).header.id;
    StoredSnapshots(store.db, id, block);
    ghost var before := store.caches;
    first := store.SnapshotsFor(ISSUER, 1, block);
    NowCached(before, store.caches, store.db.state, id);
  }

  /** What the run keeps while blocks are appended to a store that AskFirst left. */
  ghost predicate Running(store: LevelDBWriter, id: nat)
    reads store
  {
    && store.Valid() && ShortIds(store.chain)
    && |store.deltas| == store.chain.Height() >= 1
    && store.db.blocks.safeRollbackHeight == Higher(0, store.chain.Height() - store.maxRollbackDepth)
    && store.deltas[0] == GENESIS_DELTA
    && store.chain.Upto(1).Grown? && store.chain.Upto(1).Block() == BlockOf(1, [GENESIS_TX])
    && Lookup(store.db.addresses.addressId, ISSUER) == Some(id) && GenesisCached(store.caches, id)
  }

  method Keep(store: LevelDBWriter, id: nat, diff: Diff, txs: seq<Transaction>)
    requires Running(store, id) && NoGenesis(BlockOf(1, txs))
    requires TransactionIds(txs) !! AllTransactionIds(store.chain) && DistinctIds(txs)
    requires diff.transactions.Keys <= TransactionIds(txs) && diff.scripts == map[] && diff.accountData == map[]
    modifies store
    ensures Running(store, id) && store.deltas == old(store.deltas) + [Delta(diff, 0)] && store.chain.Height() == old(store.chain).Height() + 1
    ensures store.chain.Grown? && store.chain.below == old(store.chain)
    ensures AllTransactionIds(store.chain) == AllTransactionIds(old(store.chain)) + TransactionIds(txs)
    ensures Acceptable(old(store.db), store.chain.update) && store.db == After(old(store.db), store.chain.update, store.maxRollbackDepth)
  {
    hide Based, Meant, Stored, HeightsCoherent, Coherent, LoadCurrent, AppliedWhereReady, Ready, After, Acceptable, BlockIds, AllTransactionIds, ShortIds,
      TransactionIds, DistinctIds, NoGenesis;
    Grow(store, diff, txs);
  }

  /** Empty blocks up to 1001 and the rollback depth, behind a payment in block 2. */
  method FillUp(store: LevelDBWriter, id: nat)
    requires Running(store, id) && store.chain.Height() == 1 && AllTransactionIds(store.chain) == {[10]}
    modifies store
    ensures Running(store, id) && store.chain.Height() == 1001 + store.maxRollbackDepth && AllTransactionIds(store.chain) == {[10], [14]}
    ensures IsChanged(store.chain.Upto(2).update, EarthsBalance(id))
  {
    hide Based, Meant, Stored, HeightsCoherent, Coherent, LoadCurrent, AppliedWhereReady, Ready, After, Acceptable, BlockIds, AllTransactionIds, ShortIds,
      TransactionIds, DistinctIds, Touches, IsChanged, PayDelta, GenesisCached;
    OneId(PAY_TX);
    Paying(PAY_TX);
    Keep(store, id, PayDelta(PAY_TX).diff, [PAY_TX]);
    TouchedIsChanged(store.db, store.chain, store.deltas, 2, BALANCE);
    ghost var second := store.chain;
    NoIds();
    for height := 2 to 1001 + store.maxRollbackDepth
      invariant Running(store, id) && store.chain.Height() == height && AllTransactionIds(store.chain) == {[10], [14]}
      invariant store.chain.Upto(2) == second
    {
      Keep(store, id, EMPTY_DIFF, []);
    }
  }

  /**
   Snapshots up to block 1 are asked for at height 1, which caches the balance of 1000, and again after the balance was
   changed at heights 2 and 1002 + maxRollbackDepth, which prunes height 1: the caches answer as before, the store with 0.
   */
  method CachedBalanceOutlives(maxRollbackDepth: nat)
    returns (first: seq<BalanceSnapshot>, again: seq<BalanceSnapshot>, stored: seq<BalanceSnapshot>)
    ensures first == again == [BalanceSnapshot(1, 1000, 0, 0)]
    ensures stored == [BalanceSnapshot(1, 0, 0, 0)]
  {
    hide Based, Meant, Stored, HeightsCoherent, Coherent, LoadCurrent, AppliedWhereReady, Ready, After, Acceptable, BlockIds, AllTransactionIds, ShortIds,
      TransactionIds, DistinctIds, Touches, BalancePairs, Outlived, IsChanged, PayDelta, ReadThrough, AnswerAlike, AllCached,
      BalanceSnapshots, SnapshotOf, GenesisCached;
    var store, id;
    store, id, first := AskFirst(maxRollbackDepth);
    FillUp(store, id);
    OneId(PAY_MORE_TX);
    Paying(PAY_MORE_TX);
    ghost var db, chain, deltas := store.db, store.chain, store.deltas;
    Keep(store, id, PayDelta(PAY_MORE_TX).diff, [PAY_MORE_TX]);
    TouchedIsChanged(store.db, store.chain, store.deltas, 1002 + maxRollbackDepth, BALANCE);
    PrunedNow(db, chain, deltas, store.chain.update, maxRollbackDepth, id);
    LaterAnswer(store.db, store.chain, store.deltas);
    PairsAtOne(store.db, store.chain, store.deltas, id);
    TargetIsKnown(store.db, store.chain, store.deltas, 1);
    var block := BlockOf(1, []).header.id;
    StoredSnapshots(store.db, id, block);
    stored := BalanceSnapshots(store.db, ISSUER, 1, block);
    ghost var cached := store.caches;
    again := store.SnapshotsFor(ISSUER, 1, block);
    AnsweredFromCache(cached, store.db.state, id, again);
  }
}
