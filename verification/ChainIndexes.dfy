/**
 The enumeration indexes. They only ever grow, also when blocks are rolled back; what is listed through them is filtered by
 the histories, so that enumerations stay exact.
 */
module ChainIndexes {
  import opened Common
  import opened Types
  import opened Histories
  import opened Versions
  import opened Enumerations
  import opened Tables
  import opened Batches

  ghost predicate HasHistory(s: State, key: VersionKey) {
    HistoryOf(s.history, key) != []
  }

  // ---- native balances ----

  predicate InEarthsIndex(x: Indexes, id: nat) {
    exists n :: 1 <= n <= x.earthsSeqNr && n in x.addressesForEarths && id in x.addressesForEarths[n]
  }

  ghost predicate EarthsIndexed(x: Indexes, s: State) {
    forall id :: HasHistory(s, EarthsBalance(id)) ==> InEarthsIndex(x, id)
  }

  // ---- data keys ----

  predicate InDataIndex(x: Indexes, id: nat, key: string) {
    exists n :: 0 <= n < DataChunkCount(x, id) && (id, n) in x.dataChunk && key in x.dataChunk[(id, n)]
  }

  ghost predicate DataIndexed(x: Indexes, s: State) {
    forall id, key :: HasHistory(s, Data(id, key)) ==> InDataIndex(x, id, key)
  }

  // ---- asset holders ----

  function HolderChunk(x: Indexes, asset: AssetId, n: nat): seq<nat> {
    if (asset, n) in x.addressesForAsset then x.addressesForAsset[(asset, n)] else []
  }

  function HoldersUpto(x: Indexes, asset: AssetId, n: nat): seq<nat> {
    if n == 0 then [] else HoldersUpto(x, asset, n - 1) + HolderChunk(x, asset, n)
  }

  /** Every address id that ever held the asset, in the order in which they first did. */
  function Holders(x: Indexes, asset: AssetId): seq<nat> {
    HoldersUpto(x, asset, AssetSeqNr(x, asset))
  }

  ghost predicate AssetIndexed(x: Indexes, s: State, asset: AssetId) {
    && Distinct(Holders(x, asset))
    && (forall id :: id in Holders(x, asset) <==> asset in AssetList(s, id))
  }

  ghost predicate AssetsListed(s: State) {
    forall id, asset :: HasHistory(s, AssetBalance(id, asset)) ==> asset in AssetList(s, id)
  }

  ghost predicate Indexed(x: Indexes, s: State) {
    && EarthsIndexed(x, s)
    && DataIndexed(x, s)
    && (forall asset :: AssetIndexed(x, s, asset))
    && AssetsListed(s)
  }

  // ---- append ----

  lemma HistoriesAfter(s: State, u: Update, height: nat, maxRollbackDepth: nat, after: State, key: VersionKey)
    requires after.history == s.history + HistoryWrites(s.history, ChangesOf(s, u), height, maxRollbackDepth)
    ensures HasHistory(after, key) <==> HasHistory(s, key) || IsChanged(u, key)
  {
    hide IsChanged, ChangedKeys, Updated;
    ChangedKeysAre(u, key);
    if IsChanged(u, key) {
      UpdatedNotEmpty(HistoryOf(s.history, key), height, Threshold(key, height, maxRollbackDepth));
    }
  }

  lemma UpdatedNotEmpty(history: seq<nat>, height: nat, threshold: int)
    ensures Updated(history, height, threshold) != []
  {
  }

  lemma AppendIndexesEarths(x: Indexes, s: State, u: Update, after: Indexes, id: nat)
    requires after == AppendIndexes(x, s, u)
    ensures InEarthsIndex(x, id) ==> InEarthsIndex(after, id)
    ensures id in u.earthsBalances && !HasHistory(s, EarthsBalance(id)) ==> InEarthsIndex(after, id)
  {
    if InEarthsIndex(x, id) {
      var n :| 1 <= n <= x.earthsSeqNr && n in x.addressesForEarths && id in x.addressesForEarths[n];
      assert 1 <= n <= after.earthsSeqNr && n in after.addressesForEarths && id in after.addressesForEarths[n];
    }
    if id in u.earthsBalances && !HasHistory(s, EarthsBalance(id)) {
      assert id in NewEarthsHolders(s, u);
      var n := x.earthsSeqNr + 1;
      assert 1 <= n <= after.earthsSeqNr && n in after.addressesForEarths && id in after.addressesForEarths[n];
    }
  }

  lemma AppendIndexesData(x: Indexes, s: State, u: Update, after: Indexes, id: nat, key: string)
    requires after == AppendIndexes(x, s, u)
    ensures InDataIndex(x, id, key) ==> InDataIndex(after, id, key)
    ensures key in DataKeysOf(u, id) && !HasHistory(s, Data(id, key)) ==> InDataIndex(after, id, key)
  {
    hide DataChunkPuts, NewEarthsHolders, AssetSeqNrPuts, AssetHolderPuts;
    var count := DataChunkCount(x, id);
    if InDataIndex(x, id, key) {
      var n :| 0 <= n < count && (id, n) in x.dataChunk && key in x.dataChunk[(id, n)];
      ChunkPutAt(x, s, u, id, n);
      assert 0 <= n < DataChunkCount(after, id) && (id, n) in after.dataChunk && key in after.dataChunk[(id, n)];
    }
    if key in DataKeysOf(u, id) && !HasHistory(s, Data(id, key)) {
      assert key in NewDataKeys(s, u, id);
      assert id in NewDataAddresses(s, u);
      ChunkPutAt(x, s, u, id, count);
      assert 0 <= count < DataChunkCount(after, id) && (id, count) in after.dataChunk && key in after.dataChunk[(id, count)];
    }
  }

  lemma {:induction false} OlderHolders(x: Indexes, s: State, u: Update, after: Indexes, asset: AssetId, n: nat)
    requires after.addressesForAsset == x.addressesForAsset + AssetHolderPuts(x, s, u)
    requires n <= AssetSeqNr(x, asset)
    ensures HoldersUpto(after, asset, n) == HoldersUpto(x, asset, n)
  {
    hide AssetHolderPuts;
    if n > 0 {
      OlderHolders(x, s, u, after, asset, n - 1);
      HolderPutAt(x, s, u, asset, n);
    }
  }

  /** Appending only adds the new holders at the end of the list. */
  lemma HoldersAfter(x: Indexes, s: State, u: Update, after: Indexes, asset: AssetId)
    requires after == AppendIndexes(x, s, u)
    ensures Holders(after, asset) == Holders(x, asset) + Ascending(NewAssetHolders(s, u, asset))
  {
    hide AssetHolderPuts, DataChunkPuts, NewEarthsHolders, DataChunkCountPuts, Ascending, NewAssets, NewAssetHolders;
    var n := AssetSeqNr(x, asset);
    OlderHolders(x, s, u, after, asset, n);
    HolderPutAt(x, s, u, asset, n + 1);
    if asset in NewAssets(s, u) {
      assert AssetSeqNr(after, asset) == n + 1;
    } else {
      assert AssetSeqNr(after, asset) == n;
      NoNewHolders(s, u, asset);
    }
  }

  lemma NoNewHolders(s: State, u: Update, asset: AssetId)
    requires asset !in NewAssets(s, u)
    ensures NewAssetHolders(s, u, asset) == {}
    ensures Ascending(NewAssetHolders(s, u, asset)) == []
  {
    forall id ensures id !in NewAssetHolders(s, u, asset) {
      if id in NewAssetHolders(s, u, asset) {
        assert false;
      }
    }
  }

  lemma AppendKeepsAssetIndex(x: Indexes, s: State, u: Update, afterX: Indexes, after: State, asset: AssetId)
    requires AssetIndexed(x, s, asset)
    requires afterX == AppendIndexes(x, s, u)
    requires forall id :: AssetList(after, id) == AssetList(s, id) + AssetsOf(u, id)
    ensures AssetIndexed(afterX, after, asset)
  {
    hide AppendIndexes, AssetList, Holders;
    HoldersAfter(x, s, u, afterX, asset);
    var added := NewAssetHolders(s, u, asset);
    AscendingIncreases(added);
    forall id ensures id in Holders(afterX, asset) <==> asset in AssetList(after, id) {
      assert AssetList(after, id) == AssetList(s, id) + AssetsOf(u, id);
    }
    DistinctConcat(Holders(x, asset), Ascending(added));
  }

  lemma DistinctConcat(a: seq<nat>, b: seq<nat>)
    requires Distinct(a) && Increasing(b)
    requires forall id :: id in b ==> id !in a
    ensures Distinct(a + b)
  {
    var c := a + b;
    forall i, j | 0 <= i < j < |c| ensures c[i] != c[j] {
      if i < |a| <= j {
        assert c[i] in a && c[j] in b;
      }
    }
  }

  lemma AppendKeepsEarthsIndexed(x: Indexes, s: State, u: Update, height: nat, maxRollbackDepth: nat, afterX: Indexes, after: State)
    requires EarthsIndexed(x, s) && afterX == AppendIndexes(x, s, u)
    requires after.history == s.history + HistoryWrites(s.history, ChangesOf(s, u), height, maxRollbackDepth)
    ensures EarthsIndexed(afterX, after)
  {
    hide AppendIndexes, HistoryWrites, HasHistory, InEarthsIndex;
    forall id | HasHistory(after, EarthsBalance(id)) ensures InEarthsIndex(afterX, id) {
      HistoriesAfter(s, u, height, maxRollbackDepth, after, EarthsBalance(id));
      AppendIndexesEarths(x, s, u, afterX, id);
    }
  }

  lemma AppendKeepsDataIndexed(x: Indexes, s: State, u: Update, height: nat, maxRollbackDepth: nat, afterX: Indexes, after: State)
    requires DataIndexed(x, s) && afterX == AppendIndexes(x, s, u)
    requires after.history == s.history + HistoryWrites(s.history, ChangesOf(s, u), height, maxRollbackDepth)
    ensures DataIndexed(afterX, after)
  {
    hide AppendIndexes, HistoryWrites, HasHistory, InDataIndex, DataKeysOf;
    forall id, key | HasHistory(after, Data(id, key)) ensures InDataIndex(afterX, id, key) {
      HistoriesAfter(s, u, height, maxRollbackDepth, after, Data(id, key));
      AppendIndexesData(x, s, u, afterX, id, key);
    }
  }

  lemma AppendKeepsAssetsListed(s: State, u: Update, height: nat, maxRollbackDepth: nat, after: State)
    requires AssetsListed(s)
    requires after.history == s.history + HistoryWrites(s.history, ChangesOf(s, u), height, maxRollbackDepth)
    requires forall id :: AssetList(after, id) == AssetList(s, id) + AssetsOf(u, id)
    ensures AssetsListed(after)
  {
    hide HistoryWrites, HasHistory, AssetList, AssetsOf;
    forall id, asset | HasHistory(after, AssetBalance(id, asset)) ensures asset in AssetList(after, id) {
      HistoriesAfter(s, u, height, maxRollbackDepth, after, AssetBalance(id, asset));
      assert AssetList(after, id) == AssetList(s, id) + AssetsOf(u, id);
    }
  }

  lemma AppendKeepsIndexes(x: Indexes, s: State, u: Update, height: nat, maxRollbackDepth: nat, afterX: Indexes, after: State)
    requires Indexed(x, s)
    requires afterX == AppendIndexes(x, s, u)
    requires after == CommitState(s, AppendStateBatch(s, u, height, maxRollbackDepth))
    ensures Indexed(afterX, after)
  {
    hide AppendIndexes, HistoryWrites, ValueWrites, Commit, EarthsIndexed, DataIndexed, AssetIndexed, AssetsListed, AssetListPuts, AssetList, AssetsOf;
    forall id ensures AssetList(after, id) == AssetList(s, id) + AssetsOf(u, id) {
      AppendedAssetList(s, u, after, id);
    }
    AppendKeepsEarthsIndexed(x, s, u, height, maxRollbackDepth, afterX, after);
    AppendKeepsDataIndexed(x, s, u, height, maxRollbackDepth, afterX, after);
    AppendKeepsAssetsListed(s, u, height, maxRollbackDepth, after);
    forall asset ensures AssetIndexed(afterX, after, asset) {
      AppendKeepsAssetIndex(x, s, u, afterX, after, asset);
    }
  }

  // ---- rollback ----

  lemma RollbackKeepsIndexes(x: Indexes, s: State, keys: set<VersionKey>, height: nat, after: State)
    requires Indexed(x, s)
    requires after == CommitState(s, RollbackStateBatch(s, keys, height))
    ensures Indexed(x, after)
  {
    hide Commit, InEarthsIndex, InDataIndex, Holders;
    assert after.assetList == s.assetList;
    forall id ensures AssetList(after, id) == AssetList(s, id) {
    }
    forall key | HasHistory(after, key) ensures HasHistory(s, key) {
      assert forall i :: i in Without(HistoryOf(s.history, key), height) ==> i in HistoryOf(s.history, key);
    }
    forall asset ensures AssetIndexed(x, after, asset) {
      assert AssetIndexed(x, s, asset);
    }
  }
}
