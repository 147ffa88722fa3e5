/**
 A run on which an append does not apply its difference: it removes the script of an asset at a height under which a rollback
 left one. Validation lets no block remove the script of an asset, and by Node.LawfulIsReady other appends always apply.
 */
module RemovalRun {
  import opened Common
  import opened Types
  import opened Histories
  import opened Versions
  import opened Tables
  import opened Batches
  import opened ChainBlocks
  import opened ChainNode
  import opened ChainRuns
  import opened Survivors
  import opened Diffs
  import opened Coherence
  import opened DiffCoverage
  import opened Leftovers
  import opened HeightCaches
  import opened Node
  import opened Runs
  import opened OutlivedRun
  import opened StaleLeaseRun
  import Uncovered
  import Exactness
  import Updates

  const SCRIPT := Keyed(AssetScript(ASSET))
  const SCRIPTED: map<AssetId, Option<Script>> := map[ASSET := Some([42])]
  const REMOVE_TX := Transaction([17], 15, 0, SetAssetScript(ASSET))

  function RemoveDelta(): Delta {
    Delta(EMPTY_DIFF.(transactions := map[[17] := (REMOVE_TX, {ISSUER})], portfolios := map[ISSUER := Coins(-1)], assetScripts := map[ASSET := None]), 0)
  }

  lemma RemoveListed()
    ensures var diff := RemoveDelta().diff;
            && diff.transactions.Keys == {[17]} && diff.scripts == map[] && diff.accountData == map[]
            && Removes(diff, SCRIPT) && RemoveDelta() == Delta(diff, 0)
    ensures forall held :: Applied(RemoveDelta(), SCRIPT, held) == None
  {
  }

  /** The script of the issue in block 2 is stored under height 2. */
  lemma ScriptStored(db: Tables, chain: Chain, deltas: seq<Delta>)
    requires Faithful(db, chain, deltas) && deltas == [GENESIS_DELTA] + [IssueDelta(SCRIPTED)]
    ensures chain.Height() == 2 && Lookup(db.state.value, (AssetScript(ASSET), 2)) == Some(Code([42]))
    ensures chain.Grown? && IsChanged(chain.update, AssetScript(ASSET))
  {
    hide Based, Meant, Stored, Anchored, KeyKept, IsChanged, LatestItem, Fold, Touches, ItemUndone, IssueDelta, Descending;
    var key := AssetScript(ASSET);
    BasedHeight(db, chain, deltas);
    KeysKept(db, chain, deltas, key);
    KeptDescends(db, chain, key);
    HeightOfStore(db, chain);
    IssueUndone(SCRIPTED);
    TouchedIsChanged(db, chain, deltas, 2, SCRIPT);
    HistoryIsChanges(db, chain, key, 2);
    HeadIsTop(HistoryOf(db.state.history, key), 2);
    ItemIsFold(db, chain, deltas, SCRIPT);
    AssetIssued(SCRIPTED);
    assert FoldAll([GENESIS_DELTA] + [IssueDelta(SCRIPTED)], ASSET_ITEMS)[1] == Some(Code([42]));
    ScriptIsKeyed(db);
  }

  lemma ScriptIsKeyed(db: Tables)
    ensures LatestItem(db, SCRIPT) == LatestValue(db.state, AssetScript(ASSET))
  {
  }

  /** The rollback of the issue does not reach it. */
  lemma ScriptLeft(db: Tables, chain: Chain, deltas: seq<Delta>)
    requires Faithful(db, chain, deltas) && deltas == [GENESIS_DELTA] + [IssueDelta(SCRIPTED)]
    requires chain.Grown? && chain.Block().transactions == [ISSUE_TX] && db.blocks.safeRollbackHeight == 0
    ensures (AssetScript(ASSET), 2) in RolledBack(db, 1).state.value
  {
    hide Based, Meant, Stored, Anchored, RolledBack, RollbackKeys, IssueDelta, Lookup, IsChanged;
    var key := AssetScript(ASSET);
    ScriptStored(db, chain, deltas);
    BasedIsAnchored(db, chain, deltas);
    RollbackLeaves(db, chain, key, 1);
    ScriptNotReached(db, chain);
    assert Lookup(RolledBack(db, 1).state.value, (key, 2)) == Lookup(db.state.value, (key, 2));
    InTable(RolledBack(db, 1).state.value, (key, 2));
  }

  lemma InTable<K, V>(table: map<K, V>, k: K)
    ensures Lookup(table, k).Some? ==> k in table
  {
  }

  lemma ScriptNotReached(db: Tables, chain: Chain)
    requires Anchored(db, chain) && chain.Height() == 2 && chain.Block().transactions == [ISSUE_TX] && db.blocks.safeRollbackHeight == 0
    requires IsChanged(chain.update, AssetScript(ASSET))
    ensures !Discards(db, AssetScript(ASSET), 1, 2)
  {
    hide Anchored, RollbackKeys, IsChanged, UndoneByTransactions;
    Uncovered.OnlySetAssetScriptUndoes(db.addresses.addressId, [ISSUE_TX], ASSET);
    TopReached(db, chain, AssetScript(ASSET));
  }

  /** The asset issued in block 2 is rolled back; another block 2 removes its script, which can still be read. */
  method RemovedScriptStays() returns (left: Option<Value>)
    ensures left.Some?
  {
    hide Based, Meant, HeightsCoherent, Coherent, LoadCurrent, After, Acceptable, AtHeights, HeightsLeft, RolledBack, AppliedWhereReady, StayExact, Ready,
      ItemReady, Surviving, DiffsCoveredAbove, Fold, BlockIds, AllTransactionIds, ShortIds, LatestItem, TransactionIds, DistinctIds, IssueDelta, RemoveDelta,
      Lawful, ScriptsSet, Updates.ListedByAddress, ChangesOf, ChangedKeys, Updates.Touched, Fresh;
    var store := Open(100, GENESIS_DELTA.diff, GENESIS_TX);
    ghost var one := store.chain;
    OneId(ISSUE_TX);
    IssueListed(SCRIPTED);
    Grow(store, IssueDelta(SCRIPTED).diff, [ISSUE_TX]);
    ScriptLeft(store.db, store.chain, store.deltas);
    GoBack(store, 1);
    assert store.chain == one;
    OneId(REMOVE_TX);
    RemoveListed();
    NextFits(store.db, store.chain, store.deltas, [REMOVE_TX]);
    ghost var db := store.db;
    store.Append(RemoveDelta().diff, 0, BlockOf(2, [REMOVE_TX]));
    NotApplied(db, store.db);
    left := LatestItem(store.db, SCRIPT);
  }

  lemma NotApplied(before: Tables, after: Tables)
    requires AppliedWhereReady(before, RemoveDelta(), 100, after)
    requires (AssetScript(ASSET), before.blocks.height + 1) in before.state.value
    ensures LatestItem(after, SCRIPT).Some?
  {
    hide LatestItem, ItemReady, RemoveDelta, Applied;
    RemoveListed();
    ReadyWithDepth(before, RemoveDelta().diff, 100, SCRIPT);
    assert LatestItem(after, SCRIPT) == Applied(RemoveDelta(), SCRIPT, LatestItem(before, SCRIPT))
           <==> ItemReady(before, RemoveDelta().diff, 100, SCRIPT);
  }
}
