/**
 A run on which a cached lease balance outlives the block it belongs to: the rollback does not drop it, because the block did not
 record the address, and the block that takes its height is answered with it.
 */
module StaleLeaseRun {
  import opened Common
  import opened Types
  import opened Histories
  import opened Versions
  import opened Tables
  import opened Batches
  import opened ChainBlocks
  import opened ChainState
  import opened ChainNode
  import opened ChainRuns
  import opened Survivors
  import opened Snapshots
  import opened Diffs
  import opened Coherence
  import opened DiffCoverage
  import opened Exactness
  import opened Leftovers
  import opened HeightCaches
  import opened Node
  import opened Runs
  import opened OutlivedRun
  import ChainAddressTxs
  import ChainIndexes

  /** A slice of one height that no entry exceeds is the newest entry. */
  lemma SliceOfTop(history: seq<nat>, top: nat)
    requires forall i :: i in history ==> i <= top
    ensures Slice(history, top, top) == [HeadOption(history).GetOr(1)]
  {
    if history != [] {
      assert history[0] in history;
      assert NotAbove(history, top)[0] == history[0];
    }
    NothingIsAbove(history, top);
  }

  lemma {:induction false} NothingIsAbove(history: seq<nat>, top: nat)
    requires forall i :: i in history ==> i <= top
    ensures Above(history, top) == []
  {
    if Above(history, top) != [] {
      assert Above(history, top)[0] in Above(history, top);
    }
  }

  /** The native balance changed at height 1 only, and the lease balance at the given height last. */
  ghost predicate TopsAt(s: State, id: nat, top: nat) {
    var w, l := HistoryOf(s.history, EarthsBalance(id)), HistoryOf(s.history, LeaseBalanceOf(id));
    && w != [] && (forall i :: i in w ==> i == 1)
    && l != [] && l[0] == top && (forall i :: i in l ==> i <= top)
  }

  /** Then a request for this height asks for the two latest values. */
  lemma TopAnswer(s: State, id: nat, top: nat)
    requires TopsAt(s, id, top) && top >= 1
    ensures BalancePairs(s, id, top, top) == [(1, top)]
    ensures var leases := LeasesOf(LatestValue(s, LeaseBalanceOf(id)));
            SnapshotOf(s, id, (1, top)) == BalanceSnapshot(top, AmountOf(LatestValue(s, EarthsBalance(id))), leases.incoming, leases.outgoing)
  {
    var w, l := HistoryOf(s.history, EarthsBalance(id)), HistoryOf(s.history, LeaseBalanceOf(id));
    assert w[0] in w;
    SliceOfTop(w, top);
    SliceOfTop(l, top);
  }

  // ---- the run ----

  const AGAIN_TX := Transaction([16], 8, 0, Lease)

  /** Another lease of 20 in the block that takes the height of the patch. */
  function AgainDelta(): Delta {
    Delta(EMPTY_DIFF.(
      transactions := map[[16] := (AGAIN_TX, {ISSUER, PAYEE})],
      portfolios := map[ISSUER := Lent(0, 20), PAYEE := Lent(20, 0)],
      leaseState := map[[16] := true]), 0)
  }

  const LENT := LeaseOf(ISSUER)

  lemma TouchedHere()
    ensures !Touches(LeaseDelta().diff, BALANCE) && !Touches(PatchDelta().diff, BALANCE) && !Touches(AgainDelta().diff, BALANCE)
    ensures Touches(PatchDelta().diff, LENT) && Touches(AgainDelta().diff, LENT)
    ensures !RecordsAddress(PatchDelta().diff, ISSUER)
    ensures forall item :: !Removes(AgainDelta().diff, item)
    ensures var diff := AgainDelta().diff; diff.transactions.Keys == {[16]} && diff.scripts == map[] && diff.accountData == map[]
    ensures AgainDelta() == Delta(AgainDelta().diff, 0)
  {
  }

  lemma FoldedHere()
    ensures var deltas := [GENESIS_DELTA] + [LeaseDelta()] + [PatchDelta()];
            Fold(deltas, BALANCE) == Some(Amount(1000)) && Fold(deltas, LENT) == Some(Leases(NO_LEASES))
  {
    hide Fold;
    var items := [BALANCE, LENT];
    assert [] + [GENESIS_DELTA] == [GENESIS_DELTA];
    forall i: nat | i < 2 ensures FoldAll([GENESIS_DELTA] + [LeaseDelta()] + [PatchDelta()], items)[i] ==
                                  if i == 0 then Some(Amount(1000)) else Some(Leases(NO_LEASES))
    {
      FoldNone(items, i);
      FoldMore([], GENESIS_DELTA, items, i);
      FoldMore([GENESIS_DELTA], LeaseDelta(), items, i);
      FoldMore([GENESIS_DELTA] + [LeaseDelta()], PatchDelta(), items, i);
    }
    assert FoldAll([GENESIS_DELTA] + [LeaseDelta()] + [PatchDelta()], items)[0] == Some(Amount(1000));
    assert FoldAll([GENESIS_DELTA] + [LeaseDelta()] + [PatchDelta()], items)[1] == Some(Leases(NO_LEASES));
  }

  ghost const PATCHED := [GENESIS_DELTA] + [LeaseDelta()] + [PatchDelta()]

  /** With the patch in block 3, the lease balance changed there and the native balance only at height 1. */
  lemma PatchedTops(db: Tables, chain: Chain, deltas: seq<Delta>)
    requires Faithful(db, chain, deltas) && deltas == PATCHED
    ensures ISSUER in db.addresses.addressId && chain.Height() == 3
    ensures var id := db.addresses.addressId[ISSUER];
            && TopsAt(db.state, id, 3) && id !in ChangedAddresses(db.state, 3)
            && LatestValue(db.state, EarthsBalance(id)) == Some(Amount(1000))
            && LatestValue(db.state, LeaseBalanceOf(id)) == Some(Leases(NO_LEASES))
  {
    hide Based, Meant, Stored, Anchored, KeyKept, IsChanged, LatestValue, Touches, Fold, RecordsAddress, Removes;
    TouchedHere();
    FoldedHere();
    BasedHeight(db, chain, deltas);
    ItemIsFold(db, chain, deltas, BALANCE);
    ItemIsFold(db, chain, deltas, LENT);
    var id := db.addresses.addressId[ISSUER];
    var w, l := HistoryOf(db.state.history, EarthsBalance(id)), HistoryOf(db.state.history, LeaseBalanceOf(id));
    KeysKept(db, chain, deltas, EarthsBalance(id));
    KeysKept(db, chain, deltas, LeaseBalanceOf(id));
    KeptDescends(db, chain, EarthsBalance(id));
    KeptDescends(db, chain, LeaseBalanceOf(id));
    forall i | i in w ensures i == 1 {
      HistoryIsChanges(db, chain, EarthsBalance(id), i);
      TouchedIsChanged(db, chain, deltas, i, BALANCE);
    }
    HistoryIsChanges(db, chain, LeaseBalanceOf(id), 3);
    TouchedIsChanged(db, chain, deltas, 3, LENT);
    HeightOfStore(db, chain);
    HeadIsTop(l, 3);
    HasValue(db.state, EarthsBalance(id));
    PatchRecordsNobody(db, chain, deltas);
  }

  lemma HasValue(s: State, key: VersionKey)
    requires LatestValue(s, key).Some?
    ensures HistoryOf(s.history, key) != []
  {
  }

  lemma PatchRecordsNobody(db: Tables, chain: Chain, deltas: seq<Delta>)
    requires Based(db, chain, deltas) && chain.Grown? && |deltas| > 0 && !RecordsAddress(deltas[|deltas| - 1].diff, ISSUER)
    requires ISSUER in db.addresses.addressId
    ensures db.addresses.addressId[ISSUER] !in ChangedAddresses(db.state, chain.Height())
  {
    hide BlocksStored, AddressesStored, ChainAddressTxs.ListsStored, ChainIndexes.Indexed, IdsKnown, Matched, AllChangedKnown, Counted, ScriptsStored, Exact,
      RecordedAddresses, ChangedAddresses, ChangedKeys, RecordsAddress;
    assert RecordedBlock(db.state, chain.Height(), chain.update);
  }

  lemma HeadIsTop(history: seq<nat>, top: nat)
    requires Descending(history) && top in history && forall i :: i in history ==> i <= top
    ensures history[0] == top
  {
    assert history[0] in history;
  }

  /** The rollback of the patch reaches neither balance, so the histories stay as they are. */
  lemma TopsStay(db: Tables, chain: Chain, deltas: seq<Delta>, id: nat)
    requires Based(db, chain, deltas) && chain.Height() == 3 && db.blocks.safeRollbackHeight < 2
    requires TopsAt(db.state, id, 3) && id !in ChangedAddresses(db.state, 3)
    ensures TopsAt(RolledBack(db, 2).state, id, 3)
    ensures forall key :: key == EarthsBalance(id) || key == LeaseBalanceOf(id) ==> LatestValue(RolledBack(db, 2).state, key) == LatestValue(db.state, key)
  {
    hide Anchored, MatchesDeltas, AllChangedKnown, Counted, ScriptsStored, Exact, RolledBack, RollbackKeys;
    AnchoredHeight(db, chain);
    forall key | key == EarthsBalance(id) || key == LeaseBalanceOf(id)
      ensures HistoryOf(RolledBack(db, 2).state.history, key) == HistoryOf(db.state.history, key)
      ensures LatestValue(RolledBack(db, 2).state, key) == LatestValue(db.state, key)
    {
      NotReached(db, id, key);
      RollbackLeaves(db, chain, key, 2);
      NoneDiscarded(db, key, 2, HistoryOf(db.state.history, key));
    }
  }

  lemma NotReached(db: Tables, id: nat, key: VersionKey)
    requires db.blocks.height == 3 && id !in ChangedAddresses(db.state, 3) && (key == EarthsBalance(id) || key == LeaseBalanceOf(id))
    ensures forall i :: !Discards(db, key, 2, i)
  {
    hide ChangedAddresses, TransactionsAt, AssetList, ChangedDataKeys;
    NotATransactionKey(db.addresses.addressId, Bare(TransactionsAt(db.blocks.stored, 3)), key);
  }

  lemma {:induction false} NoneDiscarded(db: Tables, key: VersionKey, target: nat, history: seq<nat>)
    requires forall i :: !Discards(db, key, target, i)
    ensures Remaining(db, key, target, history) == history
  {
    hide Discards;
    if history != [] {
      NoneDiscarded(db, key, target, history[1..]);
    }
  }

  /** The new block at height 3 changes the lease balance again and leaves the native balance alone. */
  lemma TopsAgain(db: Tables, chain: Chain, u: Update, maxRollbackDepth: nat, id: nat)
    requires Anchored(db, chain) && chain.Height() == 2 && Acceptable(db, u) && TopsAt(db.state, id, 3)
    requires !IsChanged(u, EarthsBalance(id)) && IsChanged(u, LeaseBalanceOf(id))
    ensures TopsAt(After(db, u, maxRollbackDepth).state, id, 3)
  {
    hide Anchored, Acceptable, After, ChangesOf, ChangedKeys, IsChanged;
    AnchoredHeight(db, chain);
    AfterFields(db, u, maxRollbackDepth);
    ChangedKeysAre(u, EarthsBalance(id));
    ChangedKeysAre(u, LeaseBalanceOf(id));
    UpdatedTop(HistoryOf(db.state.history, LeaseBalanceOf(id)), 3, Threshold(LeaseBalanceOf(id), 3, maxRollbackDepth));
  }

  lemma UpdatedTop(history: seq<nat>, height: nat, threshold: int)
    requires forall i :: i in history ==> i <= height
    ensures Updated(history, height, threshold)[0] == height && forall i :: i in Updated(history, height, threshold) ==> i <= height
  {
    var kept := NotAbove(history, threshold);
    var cut := kept[..if kept == [] then 0 else 1];
    forall i | i in Updated(history, height, threshold) ensures i <= height {
      assert i in cut ==> i in kept;
      assert i == height || i in Above(history, threshold) || i in cut;
    }
  }

  /** What a miss reads when nothing is cached. */
  lemma ReadUncached(c: CacheTables, s: State, id: nat, p: (nat, nat), r: seq<BalanceSnapshot>)
    requires AtHeights(c) == (map[], map[]) && ReadThrough(c, s, id, [p], r)
    ensures r == [SnapshotOf(s, id, p)]
  {
    assert r[0] == SnapshotThrough(c, s, id, p);
  }

  ghost predicate PatchCached(c: CacheTables, id: nat) {
    Lookup(c.balanceAt, (1, id)) == Some(1000) && Lookup(c.leaseAt, (3, id)) == Some(NO_LEASES)
  }

  lemma PatchNowCached(first: CacheTables, c: CacheTables, s: State, id: nat)
    requires ReadThrough(first, s, id, [(1, 3)], [BalanceSnapshot(3, 1000, 0, 0)]) && AnswerAlike(c, first, s) && AllCached(c, id, [(1, 3)])
    ensures PatchCached(c, id)
  {
    hide AmountOf, LeasesOf;
    assert (1, 3) in [(1, 3)];
    assert [BalanceSnapshot(3, 1000, 0, 0)][0] == SnapshotThrough(first, s, id, [(1, 3)][0]);
    assert BalanceThrough(c, s, id, 1) == BalanceThrough(first, s, id, 1) == 1000;
    assert LeasesThrough(c, s, id, 3) == LeasesThrough(first, s, id, 3) == NO_LEASES;
  }

  /** The rollback of block 3 leaves both entries cached, since the block did not record the address. */
  lemma PatchStaysCached(c: CacheTables, after: CacheTables, db: Tables, id: nat)
    requires PatchCached(c, id) && id !in ChangedAddresses(db.state, 3) && db.blocks.height == 3
    requires AtHeights(after) == HeightsLeft(c, db, 2)
    ensures PatchCached(after, id)
  {
    hide ChangedAddresses;
  }

  lemma AnsweredStale(c: CacheTables, s: State, id: nat, r: seq<BalanceSnapshot>)
    requires PatchCached(c, id) && ReadThrough(c, s, id, [(1, 3)], r)
    ensures r == [BalanceSnapshot(3, 1000, 0, 0)]
  {
    assert r[0] == SnapshotThrough(c, s, id, (1, 3));
  }

  lemma OneStored(db: Tables, id: nat, block: Id)
    requires Lookup(db.addresses.addressId, ISSUER) == Some(id) && Lookup(db.blocks.stored.heightOf, block) == Some(3)
    requires BalancePairs(db.state, id, 3, 3) == [(1, 3)]
    ensures BalanceSnapshots(db, ISSUER, 3, block) == [SnapshotOf(db.state, id, (1, 3))]
  {
    hide SnapshotOf;
  }

  lemma AgainIsReady(db: Tables)
    ensures Ready(db, AgainDelta().diff, 100)
  {
    hide Removes, KeyOf, ItemReady, Touches;
    TouchedHere();
    forall item ensures ItemReady(db, AgainDelta().diff, 100, item) {
      ReadyWithDepth(db, AgainDelta().diff, 100, item);
    }
  }

  /** The new lease is added to what the rollback left. */
  lemma AgainApplied(before: Tables, after: Tables, id: nat)
    requires AppliedWhereReady(before, AgainDelta(), 100, after)
    requires Lookup(before.addresses.addressId, ISSUER) == Some(id) == Lookup(after.addresses.addressId, ISSUER)
    requires LatestValue(before.state, EarthsBalance(id)) == Some(Amount(1000))
    requires LatestValue(before.state, LeaseBalanceOf(id)) == Some(Leases(NO_LEASES))
    ensures LatestValue(after.state, EarthsBalance(id)) == Some(Amount(1000))
    ensures LatestValue(after.state, LeaseBalanceOf(id)) == Some(Leases(LeaseBalance(0, 20)))
  {
    hide LatestValue, ItemReady;
    AgainIsReady(before);
    assert ItemReady(before, AgainDelta().diff, 100, BALANCE) && ItemReady(before, AgainDelta().diff, 100, LENT);
    assert LatestItem(after, BALANCE) == Applied(AgainDelta(), BALANCE, LatestItem(before, BALANCE));
    assert LatestItem(after, LENT) == Applied(AgainDelta(), LENT, LatestItem(before, LENT));
  }

  /** A store whose block 3 is the patch. */
  method Patched() returns (store: LevelDBWriter)
    ensures fresh(store) && store.Valid() && store.maxRollbackDepth == 100 && store.db.blocks.safeRollbackHeight == 0
    ensures store.deltas == PATCHED && store.chain.Height() == 3 && store.chain.Upto(2).Grown? && ShortIds(store.chain.Upto(2))
    ensures store.chain.Grown? && store.chain.Block() == BlockOf(3, [])
    ensures store.chain.Upto(2).Block().header.id == BlockOf(2, []).header.id && AllTransactionIds(store.chain.Upto(2)) == {[10], LEASE}
    ensures AtHeights(store.caches) == (map[], map[])
  {
    hide Based, Meant, HeightsCoherent, Coherent, LoadCurrent, After, Acceptable, AtHeights, Ready, AppliedWhereReady, BlockIds, AllTransactionIds,
      ShortIds, TransactionIds, DistinctIds, LeaseDelta, PatchDelta, Fold, FoldAll;
    store := Open(100, GENESIS_DELTA.diff, GENESIS_TX);
    OneId(LEASE_TX);
    Leasing();
    Grow(store, LeaseDelta().diff, [LEASE_TX]);
    ghost var two := store.chain;
    NoIds();
    Patching([GENESIS_DELTA] + [LeaseDelta()]);
    Grow(store, PatchDelta().diff, []);
    assert store.chain.Upto(2) == two;
  }

  /** A request for the patched block. */
  method AskPatched(store: LevelDBWriter) returns (id: nat, patched: seq<BalanceSnapshot>)
    requires store.Valid() && store.deltas == PATCHED && store.chain.Grown? && store.chain.Block().header.id == BlockOf(3, []).header.id
    requires AtHeights(store.caches) == (map[], map[])
    modifies store`caches
    ensures store.Valid() && Lookup(store.db.addresses.addressId, ISSUER) == Some(id) && PatchCached(store.caches, id)
    ensures TopsAt(store.db.state, id, 3) && id !in ChangedAddresses(store.db.state, 3)
    ensures LatestValue(store.db.state, EarthsBalance(id)) == Some(Amount(1000))
    ensures LatestValue(store.db.state, LeaseBalanceOf(id)) == Some(Leases(NO_LEASES))
    ensures patched == [BalanceSnapshot(3, 1000, 0, 0)]
  {
    hide Based, Meant, HeightsCoherent, Coherent, LoadCurrent, AtHeights, LatestValue, BalancePairs, Outlived, ReadThrough, AnswerAlike, AllCached,
      BalanceSnapshots, SnapshotOf, TopsAt, ChangedAddresses, PatchCached;
    PatchedTops(store.db, store.chain, store.deltas);
    id := store.db.addresses.addressId[ISSUER];
    TopAnswer(store.db.state, id, 3);
    TargetIsKnown(store.db, store.chain, store.deltas, 3);
    ghost var before := store.caches;
    patched := store.SnapshotsFor(ISSUER, 3, BlockOf(3, []).header.id);
    ReadUncached(before, store.db.state, id, (1, 3), patched);
    PatchNowCached(before, store.caches, store.db.state, id);
  }

  /** Block 3 is rolled back; the cached entries and the histories of both balances stay. */
  method TakePatchOff(store: LevelDBWriter, id: nat)
    requires store.Valid() && store.db.blocks.safeRollbackHeight == 0
    requires store.deltas == PATCHED && store.chain.Height() == 3 && store.chain.Upto(2).Grown?
    requires store.chain.Upto(2).Block().header.id == BlockOf(2, []).header.id
    requires PatchCached(store.caches, id) && TopsAt(store.db.state, id, 3) && id !in ChangedAddresses(store.db.state, 3)
    modifies store
    ensures store.Usable() && store.chain == old(store.chain).Upto(2) && |store.deltas| == 2
    ensures store.db.addresses == old(store.db).addresses && store.db.blocks.safeRollbackHeight == 0
    ensures PatchCached(store.caches, id) && TopsAt(store.db.state, id, 3)
    ensures LatestValue(store.db.state, EarthsBalance(id)) == LatestValue(old(store.db).state, EarthsBalance(id))
    ensures LatestValue(store.db.state, LeaseBalanceOf(id)) == LatestValue(old(store.db).state, LeaseBalanceOf(id))
  {
    hide Based, Meant, HeightsCoherent, Coherent, LoadCurrent, After, Acceptable, AtHeights, HeightsLeft, RolledBack, Ready, AppliedWhereReady,
      Surviving, DiffsCoveredAbove, BlockIds, AllTransactionIds, ShortIds, LatestItem, LatestValue, TransactionIds, DistinctIds, AgainDelta,
      Touches, BalancePairs, Outlived, ReadThrough, AnswerAlike, AllCached, BalanceSnapshots, SnapshotOf, TopsAt, Fold, IsChanged, ChangedAddresses,
      PatchCached;
    TopsStay(store.db, store.chain, store.deltas, id);
    ghost var db, cached := store.db, store.caches;
    BasedHeight(store.db, store.chain, store.deltas);
    GoBack(store, 2);
    PatchStaysCached(cached, store.caches, db, id);
  }

  lemma AgainListed()
    ensures var diff := AgainDelta().diff; diff.transactions.Keys == {[16]} && diff.scripts == map[] && diff.accountData == map[]
    ensures AgainDelta() == Delta(AgainDelta().diff, 0) && AGAIN_TX.id == [16]
  {
  }

  lemma LeasePutOn(before: Tables, chain: Chain, deltas: seq<Delta>, after: Tables, longer: Chain, longerDeltas: seq<Delta>, id: nat)
    requires Based(before, chain, deltas) && Based(after, longer, longerDeltas) && chain.Height() == 2 && |deltas| == 2
    requires longer.Grown? && longer.below == chain && longerDeltas == deltas + [AgainDelta()]
    requires Acceptable(before, longer.update) && after == After(before, longer.update, 100)
    requires AppliedWhereReady(before, AgainDelta(), 100, after)
    requires Lookup(before.addresses.addressId, ISSUER) == Some(id) == Lookup(after.addresses.addressId, ISSUER)
    requires TopsAt(before.state, id, 3)
    requires LatestValue(before.state, EarthsBalance(id)) == Some(Amount(1000))
    requires LatestValue(before.state, LeaseBalanceOf(id)) == Some(Leases(NO_LEASES))
    ensures TopsAt(after.state, id, 3)
    ensures LatestValue(after.state, EarthsBalance(id)) == Some(Amount(1000))
    ensures LatestValue(after.state, LeaseBalanceOf(id)) == Some(Leases(LeaseBalance(0, 20)))
  {
    hide Based, After, Acceptable, AppliedWhereReady, TopsAt, LatestValue, AgainDelta, IsChanged;
    AgainApplied(before, after, id);
    ChangedAgain(after, longer, longerDeltas, id);
    BasedIsAnchored(before, chain, deltas);
    TopsAgain(before, chain, longer.update, 100, id);
  }

  lemma ChangedAgain(after: Tables, longer: Chain, longerDeltas: seq<Delta>, id: nat)
    requires Based(after, longer, longerDeltas) && longer.Height() == 3 && |longerDeltas| == 3 && longerDeltas[2] == AgainDelta()
    requires Lookup(after.addresses.addressId, ISSUER) == Some(id)
    ensures !IsChanged(longer.update, EarthsBalance(id)) && IsChanged(longer.update, LeaseBalanceOf(id))
  {
    hide Based, AgainDelta, IsChanged, Touches;
    TouchedHere();
    TouchedIsChanged(after, longer, longerDeltas, 3, BALANCE);
    TouchedIsChanged(after, longer, longerDeltas, 3, LENT);
  }

  /** Another block 3 leases 20 on top of what the rollback left. */
  method PutLeaseOn(store: LevelDBWriter, id: nat)
    requires store.Usable() && store.chain.Height() == 2 && |store.deltas| == 2 && ShortIds(store.chain) && store.maxRollbackDepth == 100
    requires AllTransactionIds(store.chain) == {[10], LEASE}
    requires Lookup(store.db.addresses.addressId, ISSUER) == Some(id) && PatchCached(store.caches, id) && TopsAt(store.db.state, id, 3)
    requires LatestValue(store.db.state, EarthsBalance(id)) == Some(Amount(1000))
    requires LatestValue(store.db.state, LeaseBalanceOf(id)) == Some(Leases(NO_LEASES))
    modifies store
    ensures store.Usable() && store.chain.Height() == 3 && store.chain.Grown? && store.chain.Block() == BlockOf(3, [AGAIN_TX])
    ensures Lookup(store.db.addresses.addressId, ISSUER) == Some(id) && PatchCached(store.caches, id) && TopsAt(store.db.state, id, 3)
    ensures LatestValue(store.db.state, EarthsBalance(id)) == Some(Amount(1000))
    ensures LatestValue(store.db.state, LeaseBalanceOf(id)) == Some(Leases(LeaseBalance(0, 20)))
  {
    hide Based, Meant, HeightsCoherent, Coherent, LoadCurrent, After, Acceptable, AtHeights, HeightsLeft, RolledBack, Ready, AppliedWhereReady,
      Surviving, DiffsCoveredAbove, BlockIds, AllTransactionIds, ShortIds, LatestItem, LatestValue, TransactionIds, DistinctIds, AgainDelta,
      Touches, BalancePairs, Outlived, ReadThrough, AnswerAlike, AllCached, BalanceSnapshots, SnapshotOf, TopsAt, Fold, IsChanged, ChangedAddresses,
      PatchCached;
    ghost var below, chain, deltas, left := store.db, store.chain, store.deltas, store.caches;
    OneId(AGAIN_TX);
    AgainListed();
    AgainIsReady(store.db);
    Grow(store, AgainDelta().diff, [AGAIN_TX]);
    LeasePutOn(below, chain, deltas, store.db, store.chain, store.deltas, id);
    PatchCachedStill(left, store.caches, id);
  }

  /**
   Block 3 cancels the lease of 50 without recording the addresses, and a snapshot for it is asked for. After its rollback another
   block 3 with a lease of 20 is asked for: the store has 20 lent out, but the answer is the lease balance cached for the block
   that is gone.
   */
  method LeaseBalanceGoesStale() returns (patched: seq<BalanceSnapshot>, again: seq<BalanceSnapshot>, stored: seq<BalanceSnapshot>)
    ensures patched == again == [BalanceSnapshot(3, 1000, 0, 0)]
    ensures stored == [BalanceSnapshot(3, 1000, 0, 20)]
  {
    hide Based, Meant, HeightsCoherent, Coherent, LoadCurrent, After, Acceptable, AtHeights, HeightsLeft, RolledBack, Ready, AppliedWhereReady,
      Surviving, DiffsCoveredAbove, BlockIds, AllTransactionIds, ShortIds, LatestItem, LatestValue, TransactionIds, DistinctIds, AgainDelta,
      Touches, BalancePairs, Outlived, ReadThrough, AnswerAlike, AllCached, BalanceSnapshots, SnapshotOf, TopsAt, Fold, IsChanged, ChangedAddresses,
      PatchCached;
    var store := Patched();
    var id;
    id, patched := AskPatched(store);
    TakePatchOff(store, id);
    PutLeaseOn(store, id);
    TopAnswer(store.db.state, id, 3);
    TargetIsKnown(store.db, store.chain, store.deltas, 3);
    var block := BlockOf(3, []).header.id;
    OneStored(store.db, id, block);
    stored := BalanceSnapshots(store.db, ISSUER, 3, block);
    ghost var now := store.caches;
    again := store.SnapshotsFor(ISSUER, 3, block);
    AnsweredStale(now, store.db.state, id, again);
  }

  lemma PatchCachedStill(c: CacheTables, after: CacheTables, id: nat)
    requires PatchCached(c, id) && AtHeights(after) == AtHeights(c)
    ensures PatchCached(after, id)
  {
  }

  lemma BasedIsAnchored(db: Tables, chain: Chain, deltas: seq<Delta>)
    requires Based(db, chain, deltas)
    ensures Anchored(db, chain)
  {
    hide Anchored;
  }
}
