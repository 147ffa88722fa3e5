/** The caches in front of the store, and why they always answer as a fresh load would. */
module Coherence {
  import opened Common
  import opened Types
  import opened Histories
  import opened Versions
  import opened Tables
  import opened Batches
  import opened ChainBlocks
  import opened ChainNode
  import opened ChainRuns
  import opened Snapshots
  import opened RollingBack
  import opened Diffs
  import ChainState
  import ChainIndexes
  import ChainAddressTxs

  datatype CacheTables = CacheTables(
    addressId: map<Address, Option<nat>>,
    balances: map<(Address, Option<AssetId>), int>,
    leases: map<Address, LeaseBalance>,
    portfolios: map<Address, Portfolio>,
    fills: map<Id, VolumeAndFee>,
    scripts: map<Address, Option<Script>>,
    assetScripts: map<AssetId, Option<Script>>,
    balanceAt: map<(nat, nat), int>,
    leaseAt: map<(nat, nat), LeaseBalance>)

  // ---- fresh loads ----

  function LoadBalance(db: Tables, address: Address, asset: Option<AssetId>): int {
    AmountOf(LatestItem(db, BalanceOf(address, asset)))
  }

  function LoadLeaseBalance(db: Tables, address: Address): LeaseBalance {
    LeasesOf(LatestItem(db, LeaseOf(address)))
  }

  function LoadVolumeAndFee(db: Tables, order: Id): VolumeAndFee {
    FillOf(LatestItem(db, Keyed(FilledVolumeAndFee(order))))
  }

  function LoadScript(db: Tables, address: Address): Option<Script> {
    ScriptIn(LatestItem(db, ScriptOf(address)))
  }

  function LoadAssetScript(db: Tables, asset: AssetId): Option<Script> {
    ScriptIn(LatestItem(db, Keyed(AssetScript(asset))))
  }

  function AssetsHeld(db: Tables, address: Address): set<AssetId> {
    if address in db.addresses.addressId then AssetList(db.state, db.addresses.addressId[address]) else {}
  }

  function LoadPortfolio(db: Tables, address: Address): Portfolio {
    Portfolio(LoadBalance(db, address, None), LoadLeaseBalance(db, address),
              map asset | asset in AssetsHeld(db, address) :: LoadBalance(db, address, Some(asset)))
  }

  // ---- coherence ----

  ghost predicate Coherent(c: CacheTables, db: Tables) {
    BalancesCoherent(c, db) && OthersCoherent(c, db)
  }

  ghost predicate BalancesCoherent(c: CacheTables, db: Tables) {
    && (forall k :: k in c.balances ==> c.balances[k] == LoadBalance(db, k.0, k.1))
    && (forall a :: a in c.leases ==> c.leases[a] == LoadLeaseBalance(db, a))
    && (forall a :: a in c.portfolios ==> c.portfolios[a] == LoadPortfolio(db, a))
  }

  ghost predicate OthersCoherent(c: CacheTables, db: Tables) {
    && (forall a :: a in c.addressId ==> c.addressId[a] == Lookup(db.addresses.addressId, a))
    && (forall order :: order in c.fills ==> c.fills[order] == LoadVolumeAndFee(db, order))
    && (forall a :: a in c.scripts ==> c.scripts[a] == LoadScript(db, a))
    && (forall asset :: asset in c.assetScripts ==> c.assetScripts[asset] == LoadAssetScript(db, asset))
  }

  ghost predicate Sub<K, V>(a: map<K, V>, b: map<K, V>) {
    forall k :: k in a ==> k in b && a[k] == b[k]
  }

  /** What is left of the caches when some entries were evicted. */
  ghost predicate Evicted(kept: CacheTables, c: CacheTables) {
    && Sub(kept.addressId, c.addressId) && Sub(kept.balances, c.balances) && Sub(kept.leases, c.leases)
    && Sub(kept.portfolios, c.portfolios) && Sub(kept.fills, c.fills) && Sub(kept.scripts, c.scripts)
    && Sub(kept.assetScripts, c.assetScripts) && Sub(kept.balanceAt, c.balanceAt) && Sub(kept.leaseAt, c.leaseAt)
  }

  lemma EvictionKeepsCoherence(kept: CacheTables, c: CacheTables, db: Tables)
    requires Evicted(kept, c) && Coherent(c, db)
    ensures Coherent(kept, db)
  {
    hide LoadBalance, LoadLeaseBalance, LoadPortfolio, LoadVolumeAndFee, LoadScript, LoadAssetScript;
  }

  /** A cached entry is right, and so are the caches with one more right entry. */
  lemma BalanceEntry(c: CacheTables, db: Tables, k: (Address, Option<AssetId>))
    requires Coherent(c, db)
    ensures k in c.balances ==> c.balances[k] == LoadBalance(db, k.0, k.1)
    ensures Coherent(c.(balances := c.balances[k := LoadBalance(db, k.0, k.1)]), db)
  {
    hide LoadBalance, LoadLeaseBalance, LoadPortfolio, OthersCoherent;
    OthersAside(c, c.(balances := c.balances[k := LoadBalance(db, k.0, k.1)]), db);
  }

  lemma LeaseEntry(c: CacheTables, db: Tables, a: Address)
    requires Coherent(c, db)
    ensures a in c.leases ==> c.leases[a] == LoadLeaseBalance(db, a)
    ensures Coherent(c.(leases := c.leases[a := LoadLeaseBalance(db, a)]), db)
  {
    hide LoadBalance, LoadLeaseBalance, LoadPortfolio, OthersCoherent;
    OthersAside(c, c.(leases := c.leases[a := LoadLeaseBalance(db, a)]), db);
  }

  lemma PortfolioEntry(c: CacheTables, db: Tables, a: Address)
    requires Coherent(c, db)
    ensures a in c.portfolios ==> c.portfolios[a] == LoadPortfolio(db, a)
    ensures Coherent(c.(portfolios := c.portfolios[a := LoadPortfolio(db, a)]), db)
  {
    hide LoadBalance, LoadLeaseBalance, LoadPortfolio, OthersCoherent;
    OthersAside(c, c.(portfolios := c.portfolios[a := LoadPortfolio(db, a)]), db);
  }

  lemma ScriptEntry(c: CacheTables, db: Tables, a: Address)
    requires Coherent(c, db)
    ensures a in c.scripts ==> c.scripts[a] == LoadScript(db, a)
    ensures Coherent(c.(scripts := c.scripts[a := LoadScript(db, a)]), db)
  {
    hide LoadBalance, LoadLeaseBalance, LoadPortfolio, LoadScript, LoadVolumeAndFee, LoadAssetScript;
  }

  lemma OthersAside(c: CacheTables, filled: CacheTables, db: Tables)
    requires filled.addressId == c.addressId && filled.fills == c.fills && filled.scripts == c.scripts && filled.assetScripts == c.assetScripts
    ensures OthersCoherent(c, db) ==> OthersCoherent(filled, db)
  {
    hide LoadScript, LoadVolumeAndFee, LoadAssetScript;
  }

  // ---- append ----

  /** The update writes the effects of the delta on the latest values. */
  ghost predicate Realizes(s: State, ids: map<Address, nat>, delta: Delta, u: Update) {
    && (forall key :: IsChanged(u, key) && AboutAddress(key) ==> Known(ids, key.addressId))
    && forall item ::
         match KeyOf(ids, item)
         case None => Effect(delta, item, None) == None
         case Some(key) =>
           Effect(delta, item, LatestValue(s, key)) == if IsChanged(u, key) then Some(ChangedValue(s, u, key)) else None
  }

  lemma RealizesOnChain(db: Tables, chain: Chain, ids: map<Address, nat>, delta: Delta, u: Update)
    requires Stored(db, chain) && Realizes(db.state, ids, delta, u)
    ensures Realized(chain, ChangesOf(db.state, u), delta, ids)
  {
    hide Stored, Effect, KeyOf, IsChanged, ChangedKeys, ValueAt, LatestValue;
    var changes := ChangesOf(db.state, u);
    forall key ensures key in changes <==> IsChanged(u, key)
               ensures LatestValue(db.state, key) == ValueAt(ChainState.Deltas(chain), key, chain.Height())
    {
      ChangedKeysAre(u, key);
      LatestReads(db, chain, key);
    }
  }

  lemma MatchedOnChain(s: State, ids: map<Address, nat>, delta: Delta, u: Update)
    requires Realizes(s, ids, delta, u)
    ensures Matched(ChangesOf(s, u), delta.diff, ids)
  {
    hide Effect, KeyOf, IsChanged, ChangedKeys, LatestValue, Touches;
    var changes := ChangesOf(s, u);
    forall key ensures key in changes <==> IsChanged(u, key) {
      ChangedKeysAre(u, key);
    }
    forall item ensures match KeyOf(ids, item)
                        case None => !Touches(delta.diff, item)
                        case Some(key) => key in changes <==> Touches(delta.diff, item)
    {
      match KeyOf(ids, item)
      case None => TouchesWhatever(delta, item, None);
      case Some(key) => TouchesWhatever(delta, item, LatestValue(s, key));
    }
  }

  // ---- when an append applies its difference ----

  /** The difference removes the item's value: a script. */
  predicate Removes(diff: Diff, item: Item) {
    Effect(Delta(diff, 0), item, None) == Some(None)
  }

  /**
   The next height is ready for what the difference does to an item: what is written there does not expire at once, and where
   a value is removed none is left there. Reads the store as it is before the append.
   */
  ghost predicate ItemReady(db: Tables, diff: Diff, maxRollbackDepth: nat, item: Item) {
    Touches(diff, item) ==>
      match KeyOf(db.addresses.addressId, item)
      case None => true
      case Some(key) => KeyReady(db, key, Removes(diff, item), maxRollbackDepth)
  }

  ghost predicate KeyReady(db: Tables, key: VersionKey, removed: bool, maxRollbackDepth: nat) {
    var height := db.blocks.height + 1;
    var expires := height in Expired(HistoryOf(db.state.history, key), Threshold(key, height, maxRollbackDepth));
    if removed then expires || (key, height) !in db.state.value else !expires
  }

  ghost predicate Ready(db: Tables, diff: Diff, maxRollbackDepth: nat) {
    forall item :: ItemReady(db, diff, maxRollbackDepth, item)
  }

  /** A key that is faithful to the chain has nothing at the next height. */
  lemma KeptIsReady(db: Tables, chain: Chain, key: VersionKey, removed: bool, maxRollbackDepth: nat)
    requires Anchored(db, chain) && KeyKept(db, chain, key)
    ensures KeyReady(db, key, removed, maxRollbackDepth)
  {
    hide Anchored, LastChange, Descending;
    AnchoredHeight(db, chain);
    var height := db.blocks.height + 1;
    assert Lookup(db.state.value, (key, height)) == None;
    ExpiredInHistory(HistoryOf(db.state.history, key), Threshold(key, height, maxRollbackDepth), height);
  }

  lemma StoredIsReady(db: Tables, chain: Chain, diff: Diff, maxRollbackDepth: nat)
    requires Stored(db, chain)
    ensures Ready(db, diff, maxRollbackDepth)
  {
    hide Stored, Anchored, KeyKept, KeyReady, Touches, Removes, KeyOf;
    StoredKeys(db, chain);
    forall item ensures ItemReady(db, diff, maxRollbackDepth, item) {
      match KeyOf(db.addresses.addressId, item)
      case None =>
      case Some(key) => KeptIsReady(db, chain, key, Removes(diff, item), maxRollbackDepth);
    }
  }

  lemma ExpiredInHistory(history: seq<nat>, threshold: int, x: nat)
    ensures x in Expired(history, threshold) ==> x in history && x <= threshold
  {
    var kept := NotAbove(history, threshold);
    assert forall y :: y in kept[if kept == [] then 0 else 1..] ==> y in kept;
  }

  /** With a rollback depth nothing expires at once, so an item is ready unless a value it removes is left at the next height. */
  lemma ReadyWithDepth(db: Tables, diff: Diff, maxRollbackDepth: nat, item: Item)
    requires maxRollbackDepth > 0
    ensures ItemReady(db, diff, maxRollbackDepth, item) <==>
            (Removes(diff, item) && KeyOf(db.addresses.addressId, item).Some? ==>
               (KeyOf(db.addresses.addressId, item).value, db.blocks.height + 1) !in db.state.value)
  {
    hide Effect, KeyOf;
    match KeyOf(db.addresses.addressId, item)
    case None =>
    case Some(key) =>
      var height := db.blocks.height + 1;
      ExpiredInHistory(HistoryOf(db.state.history, key), Threshold(key, height, maxRollbackDepth), height);
  }

  lemma WrittenLatest(histories: HistoryTable, values: ValueTable, changes: Changes, height: nat, maxRollbackDepth: nat, key: VersionKey)
    ensures var after := histories + HistoryWrites(histories, changes, height, maxRollbackDepth);
            var newValues := Commit(values, ValueWrites(histories, changes, height, maxRollbackDepth));
            Latest(after, newValues, key) ==
            if key !in changes then Latest(histories, values, key)
            else if height in Expired(HistoryOf(histories, key), Threshold(key, height, maxRollbackDepth)) then None
            else if changes[key].Some? then changes[key]
            else Lookup(values, (key, height))
  {
  }

  lemma AppendedLatest(db: Tables, u: Update, maxRollbackDepth: nat, key: VersionKey)
    requires Acceptable(db, u)
    ensures var height := db.blocks.height + 1;
            LatestValue(After(db, u, maxRollbackDepth).state, key) ==
            if !IsChanged(u, key) then LatestValue(db.state, key)
            else if height in Expired(HistoryOf(db.state.history, key), Threshold(key, height, maxRollbackDepth)) then None
            else if ChangedValue(db.state, u, key).Some? then ChangedValue(db.state, u, key)
            else Lookup(db.state.value, (key, height))
  {
    hide Acceptable, After, Expired, IsChanged, ChangedKeys, ChangedValue, Commit, HistoryWrites, ValueWrites, Latest, AssetListPuts, ChangedDataPuts,
      HistoryOf, Threshold;
    AfterParts(db, u, maxRollbackDepth);
    ChangedKeysAre(u, key);
    WrittenLatest(db.state.history, db.state.value, ChangesOf(db.state, u), db.blocks.height + 1, maxRollbackDepth, key);
  }

  lemma UnknownHasNothing(db: Tables, chain: Chain, id: nat, key: VersionKey)
    requires Anchored(db, chain) && id !in db.addresses.idToAddress && AboutAddress(key) && key.addressId == id
    ensures LatestValue(db.state, key) == None && AssetList(db.state, id) == {}
    ensures HistoryOf(db.state.history, key) == [] && forall i: nat :: (key, i) !in db.state.value
  {
    hide BlocksStored, AddressesStored, ChainAddressTxs.ListsStored, ChainState.Recorded, ChainIndexes.Indexed;
    assert !ChainIndexes.HasHistory(db.state, key);
    forall i: nat ensures (key, i) !in db.state.value {
      assert (key, i).0 == key;
    }
  }

  lemma AfterParts(db: Tables, u: Update, maxRollbackDepth: nat)
    requires Acceptable(db, u)
    ensures var after := After(db, u, maxRollbackDepth);
            && after.addresses.addressId == db.addresses.addressId + u.newAddresses
            && after.state == CommitState(db.state, AppendStateBatch(db.state, u, db.blocks.height + 1, maxRollbackDepth))
  {
    hide Fresh, NewIds, SpeaksOfKnown, AppendBlocks, CommitAddressTxs, AppendIndexes, Inverse, CommitState, AppendStateBatch,
      AppendAddressTxBatch;
  }

  lemma AfterAddresses(db: Tables, u: Update, maxRollbackDepth: nat)
    requires Acceptable(db, u)
    ensures Injective(u.newAddresses)
    ensures After(db, u, maxRollbackDepth).addresses == AppendAddresses(db.addresses, u.newAddresses)
  {
    hide Fresh, SpeaksOfKnown, AppendBlocks, CommitAddressTxs, AppendIndexes, AppendAddresses, CommitState, AppendStateBatch,
      AppendAddressTxBatch;
  }

  lemma AfterFields(db: Tables, u: Update, maxRollbackDepth: nat)
    requires Acceptable(db, u)
    ensures var after := After(db, u, maxRollbackDepth);
            && after.addresses.addressId == db.addresses.addressId + u.newAddresses
            && after.state.assetList == db.state.assetList + AssetListPuts(db.state, u)
            && after.state.history ==
               db.state.history + HistoryWrites(db.state.history, ChangesOf(db.state, u), db.blocks.height + 1, maxRollbackDepth)
  {
    hide Acceptable, After, CommitState, AppendStateBatch, HistoryWrites, AssetListPuts, ChangesOf;
    AfterParts(db, u, maxRollbackDepth);
    StateBatchFields(db.state, u, db.blocks.height + 1, maxRollbackDepth, After(db, u, maxRollbackDepth).state);
  }

  lemma NewIdUnknown(a: Addresses, newAddresses: map<Address, nat>, address: Address)
    requires AddressesStored(a) && NewIds(a, newAddresses) && address in newAddresses
    ensures newAddresses[address] !in a.idToAddress && address !in a.addressId
  {
  }

  /** Addresses keep their ids; new ones get ids that were unknown. */
  lemma AddressesAfter(db: Tables, chain: Chain, u: Update, maxRollbackDepth: nat, address: Address)
    requires Anchored(db, chain) && Acceptable(db, u)
    ensures var after := After(db, u, maxRollbackDepth);
            && after.addresses.addressId == db.addresses.addressId + u.newAddresses
            && (address in db.addresses.addressId ==>
                  address in after.addresses.addressId && after.addresses.addressId[address] == db.addresses.addressId[address])
            && (address in after.addresses.addressId && address !in db.addresses.addressId ==>
                  after.addresses.addressId[address] !in db.addresses.idToAddress)
  {
    hide BlocksStored, ChainAddressTxs.ListsStored, ChainState.Recorded, ChainIndexes.Indexed, IdsKnown, Fresh, SpeaksOfKnown,
      After, AddressesStored, NewIds, ChainAddressTxs.Listed;
    AfterFields(db, u, maxRollbackDepth);
    if address in u.newAddresses {
      NewIdUnknown(db.addresses, u.newAddresses, address);
    }
  }

  /** An append applies the delta to an item exactly if the next height is ready for it. */
  lemma AppendedItem(db: Tables, chain: Chain, u: Update, maxRollbackDepth: nat, delta: Delta, item: Item)
    requires Anchored(db, chain) && Acceptable(db, u)
    requires Realizes(db.state, db.addresses.addressId + u.newAddresses, delta, u)
    ensures LatestItem(After(db, u, maxRollbackDepth), item) == Applied(delta, item, LatestItem(db, item))
            <==> ItemReady(db, delta.diff, maxRollbackDepth, item)
  {
    hide Anchored, Acceptable, Effect, LatestValue, IsChanged, ChangedValue, After, Expired, HistoryOf, Threshold, Touches, Removes;
    var after, ids := After(db, u, maxRollbackDepth), db.addresses.addressId + u.newAddresses;
    AddressesAfter(db, chain, u, maxRollbackDepth, if item.Keyed? then [] else item.address);
    match KeyOf(ids, item)
    case None =>
      TouchesWhatever(delta, item, None);
    case Some(key) =>
      AppendedLatest(db, u, maxRollbackDepth, key);
      TouchesWhatever(delta, item, LatestValue(db.state, key));
      RemovesWhatever(delta, item, LatestValue(db.state, key));
      if !item.Keyed? && item.address !in db.addresses.addressId {
        UnknownHasNothing(db, chain, ids[item.address], key);
        ExpiredInHistory([], Threshold(key, db.blocks.height + 1, maxRollbackDepth), db.blocks.height + 1);
      }
  }

  lemma RemovesWhatever(delta: Delta, item: Item, held: Option<Value>)
    ensures Effect(delta, item, held) == Some(None) <==> Removes(delta.diff, item)
  {
  }

  function CachedAddressIds(newAddresses: map<Address, nat>): map<Address, Option<nat>> {
    map a | a in newAddresses :: Some(newAddresses[a])
  }

  /** The new values of everything a difference changes, by address; balances once more split as an update wants them. */
  datatype Values = Values(
    balances: map<(Address, Option<AssetId>), int>,
    earths: map<Address, int>,
    assets: map<Address, map<AssetId, int>>,
    leases: map<Address, LeaseBalance>,
    fills: map<Id, VolumeAndFee>)

  /** What append puts into the caches: the new values of everything it changes, by address. */
  ghost predicate NewValues(db: Tables, delta: Delta, v: Values) {
    && (forall k :: Lookup(v.balances, k) ==
          match Effect(delta, BalanceOf(k.0, k.1), LatestItem(db, BalanceOf(k.0, k.1)))
          case None => None
          case Some(x) => Some(AmountOf(x)))
    && (forall a :: Lookup(v.leases, a) ==
          match Effect(delta, LeaseOf(a), LatestItem(db, LeaseOf(a)))
          case None => None
          case Some(x) => Some(LeasesOf(x)))
    && (forall order :: Lookup(v.fills, order) ==
          match Effect(delta, Keyed(FilledVolumeAndFee(order)), LatestItem(db, Keyed(FilledVolumeAndFee(order))))
          case None => None
          case Some(x) => Some(FillOf(x)))
  }

  function CachesAfterAppend(c: CacheTables, newAddresses: map<Address, nat>, diff: Diff, v: Values): CacheTables {
    CacheTables(c.addressId + CachedAddressIds(newAddresses), c.balances + v.balances, c.leases + v.leases, c.portfolios - diff.portfolios.Keys,
                c.fills + v.fills, c.scripts + diff.scripts, c.assetScripts + diff.assetScripts, c.balanceAt, c.leaseAt)
  }

  lemma AssetsHeldAfter(db: Tables, chain: Chain, u: Update, maxRollbackDepth: nat, delta: Delta, address: Address)
    requires Anchored(db, chain) && Acceptable(db, u)
    requires Realizes(db.state, db.addresses.addressId + u.newAddresses, delta, u)
    requires address !in delta.diff.portfolios
    ensures AssetsHeld(After(db, u, maxRollbackDepth), address) == AssetsHeld(db, address)
  {
    hide Anchored, LatestValue, ChangedValue, Acceptable, After, AssetListPuts, AssetList, AssetsOf;
    var after, ids := After(db, u, maxRollbackDepth), db.addresses.addressId + u.newAddresses;
    AddressesAfter(db, chain, u, maxRollbackDepth, address);
    AfterFields(db, u, maxRollbackDepth);
    if address in ids {
      var id := ids[address];
      AppendedAssetList(db.state, u, after.state, id);
      forall asset ensures asset !in AssetsOf(u, id) {
        NoAssetChange(db.state, ids, delta, u, address, asset);
      }
      if address !in db.addresses.addressId {
        UnknownHasNothing(db, chain, id, EarthsBalance(id));
      }
    }
  }

  lemma NoAssetChange(s: State, ids: map<Address, nat>, delta: Delta, u: Update, address: Address, asset: AssetId)
    requires Realizes(s, ids, delta, u) && address in ids && address !in delta.diff.portfolios
    ensures asset !in AssetsOf(u, ids[address])
  {
    hide LatestValue, ChangedValue, AssetsOf;
    var item, key := BalanceOf(address, Some(asset)), AssetBalance(ids[address], asset);
    assert KeyOf(ids, item) == Some(key);
    assert Effect(delta, item, LatestValue(s, key)) == None;
  }

  lemma PortfolioAfter(db: Tables, chain: Chain, u: Update, maxRollbackDepth: nat, delta: Delta, address: Address)
    requires Anchored(db, chain) && Acceptable(db, u) && Ready(db, delta.diff, maxRollbackDepth)
    requires Realizes(db.state, db.addresses.addressId + u.newAddresses, delta, u)
    requires address !in delta.diff.portfolios
    ensures LoadPortfolio(After(db, u, maxRollbackDepth), address) == LoadPortfolio(db, address)
  {
    hide Anchored, ItemReady, Acceptable, After, LatestItem, Realizes, AssetsHeld;
    AssetsHeldAfter(db, chain, u, maxRollbackDepth, delta, address);
    AppendedItem(db, chain, u, maxRollbackDepth, delta, LeaseOf(address));
    forall asset ensures LoadBalance(After(db, u, maxRollbackDepth), address, asset) == LoadBalance(db, address, asset) {
      AppendedItem(db, chain, u, maxRollbackDepth, delta, BalanceOf(address, asset));
    }
  }

  lemma AppendKeepsBalancesCoherent(c: CacheTables, db: Tables, chain: Chain, u: Update, maxRollbackDepth: nat, delta: Delta, v: Values)
    requires BalancesCoherent(c, db) && Anchored(db, chain) && Acceptable(db, u) && Ready(db, delta.diff, maxRollbackDepth)
    requires Realizes(db.state, db.addresses.addressId + u.newAddresses, delta, u)
    requires NewValues(db, delta, v)
    ensures BalancesCoherent(CachesAfterAppend(c, u.newAddresses, delta.diff, v), After(db, u, maxRollbackDepth))
  {
    hide Anchored, ItemReady, Acceptable, After, Realizes, LatestItem, LoadPortfolio, Applied, NewValues;
    var after, c' := After(db, u, maxRollbackDepth), CachesAfterAppend(c, u.newAddresses, delta.diff, v);
    forall k ensures k in c'.balances ==> c'.balances[k] == LoadBalance(after, k.0, k.1) {
      AppendedItem(db, chain, u, maxRollbackDepth, delta, BalanceOf(k.0, k.1));
      BalanceAfter(c, db, delta, v, k);
    }
    forall a ensures a in c'.leases ==> c'.leases[a] == LoadLeaseBalance(after, a) {
      AppendedItem(db, chain, u, maxRollbackDepth, delta, LeaseOf(a));
      LeaseAfter(c, db, delta, v, a);
    }
    forall a | a in c'.portfolios ensures c'.portfolios[a] == LoadPortfolio(after, a) {
      PortfolioAfter(db, chain, u, maxRollbackDepth, delta, a);
    }
  }

  lemma AppendKeepsOthersCoherent(c: CacheTables, db: Tables, chain: Chain, u: Update, maxRollbackDepth: nat, delta: Delta, v: Values)
    requires OthersCoherent(c, db) && Anchored(db, chain) && Acceptable(db, u) && Ready(db, delta.diff, maxRollbackDepth)
    requires Realizes(db.state, db.addresses.addressId + u.newAddresses, delta, u)
    requires NewValues(db, delta, v)
    ensures OthersCoherent(CachesAfterAppend(c, u.newAddresses, delta.diff, v), After(db, u, maxRollbackDepth))
  {
    hide Anchored, ItemReady, Acceptable, After, Realizes, LatestItem, Applied, NewValues;
    var after, c' := After(db, u, maxRollbackDepth), CachesAfterAppend(c, u.newAddresses, delta.diff, v);
    AddressesAfter(db, chain, u, maxRollbackDepth, []);
    forall order ensures order in c'.fills ==> c'.fills[order] == LoadVolumeAndFee(after, order) {
      AppendedItem(db, chain, u, maxRollbackDepth, delta, Keyed(FilledVolumeAndFee(order)));
      FillAfter(c, db, delta, v, order);
    }
    forall a ensures a in c'.scripts ==> c'.scripts[a] == LoadScript(after, a) {
      AppendedItem(db, chain, u, maxRollbackDepth, delta, ScriptOf(a));
      ScriptAfter(c, db, delta, a);
    }
    forall asset ensures asset in c'.assetScripts ==> c'.assetScripts[asset] == LoadAssetScript(after, asset) {
      AppendedItem(db, chain, u, maxRollbackDepth, delta, Keyed(AssetScript(asset)));
      AssetScriptAfter(c, db, delta, asset);
    }
  }

  /** The caches stay coherent when a block is appended. */
  lemma AppendKeepsCoherence(c: CacheTables, db: Tables, chain: Chain, u: Update, maxRollbackDepth: nat, delta: Delta, v: Values)
    requires Coherent(c, db) && Anchored(db, chain) && Acceptable(db, u) && Ready(db, delta.diff, maxRollbackDepth)
    requires Realizes(db.state, db.addresses.addressId + u.newAddresses, delta, u)
    requires NewValues(db, delta, v)
    ensures Coherent(CachesAfterAppend(c, u.newAddresses, delta.diff, v), After(db, u, maxRollbackDepth))
  {
    hide Anchored, ItemReady, Acceptable, After, Realizes, NewValues, BalancesCoherent, OthersCoherent;
    AppendKeepsBalancesCoherent(c, db, chain, u, maxRollbackDepth, delta, v);
    AppendKeepsOthersCoherent(c, db, chain, u, maxRollbackDepth, delta, v);
  }

  lemma BalanceAfter(c: CacheTables, db: Tables, delta: Delta, v: Values, k: (Address, Option<AssetId>))
    requires BalancesCoherent(c, db) && NewValues(db, delta, v)
    ensures var all := c.balances + v.balances;
            k in all ==> all[k] == AmountOf(Applied(delta, BalanceOf(k.0, k.1), LatestItem(db, BalanceOf(k.0, k.1))))
  {
    hide LatestItem, Effect, LoadPortfolio;
    assert Lookup(v.balances, k) == match Effect(delta, BalanceOf(k.0, k.1), LatestItem(db, BalanceOf(k.0, k.1)))
                                  case None => None
                                  case Some(x) => Some(AmountOf(x));
  }

  lemma LeaseAfter(c: CacheTables, db: Tables, delta: Delta, v: Values, a: Address)
    requires BalancesCoherent(c, db) && NewValues(db, delta, v)
    ensures var all := c.leases + v.leases;
            a in all ==> all[a] == LeasesOf(Applied(delta, LeaseOf(a), LatestItem(db, LeaseOf(a))))
  {
    hide LatestItem, Effect, LoadPortfolio;
    assert Lookup(v.leases, a) == match Effect(delta, LeaseOf(a), LatestItem(db, LeaseOf(a)))
                                case None => None
                                case Some(x) => Some(LeasesOf(x));
  }

  lemma FillAfter(c: CacheTables, db: Tables, delta: Delta, v: Values, order: Id)
    requires OthersCoherent(c, db) && NewValues(db, delta, v)
    ensures var all, item := c.fills + v.fills, Keyed(FilledVolumeAndFee(order));
            order in all ==> all[order] == FillOf(Applied(delta, item, LatestItem(db, item)))
  {
    hide LatestItem, Effect, LoadPortfolio;
    var item := Keyed(FilledVolumeAndFee(order));
    assert Lookup(v.fills, order) == match Effect(delta, item, LatestItem(db, item))
                                   case None => None
                                   case Some(x) => Some(FillOf(x));
  }

  lemma ScriptAfter(c: CacheTables, db: Tables, delta: Delta, a: Address)
    requires OthersCoherent(c, db)
    ensures var all := c.scripts + delta.diff.scripts;
            a in all ==> all[a] == ScriptIn(Applied(delta, ScriptOf(a), LatestItem(db, ScriptOf(a))))
  {
    hide LatestItem, LoadPortfolio;
  }

  lemma AssetScriptAfter(c: CacheTables, db: Tables, delta: Delta, asset: AssetId)
    requires OthersCoherent(c, db)
    ensures var all, item := c.assetScripts + delta.diff.assetScripts, Keyed(AssetScript(asset));
            asset in all ==> all[asset] == ScriptIn(Applied(delta, item, LatestItem(db, item)))
  {
    hide LatestItem, LoadPortfolio;
  }

  // ---- rollback of a block ----

  function CachesAfterRollback(c: CacheTables, stale: Stale, height: nat): CacheTables {
    var places := set id | id in stale.addressIds :: (height, id);
    CacheTables(c.addressId, c.balances - stale.balances, c.leases - stale.portfolios, c.portfolios - stale.portfolios,
                c.fills - stale.orders, c.scripts - stale.scripts, c.assetScripts - stale.assetScripts,
                c.balanceAt - places, c.leaseAt - places)
  }

  lemma RolledBackLatest(db: Tables, height: nat, key: VersionKey)
    requires height in db.blocks.stored.header && height > 0 && key !in RollbackKeys(db, height)
    ensures LatestValue(RollbackTables(db, height).state, key) == LatestValue(db.state, key)
  {
    hide RollbackKeys, CommitBlocks, CommitAddressTxs, Commit;
    var keys := RollbackKeys(db, height);
    DiscardedTables(db.state.history, db.state.value, keys, height, key);
  }

  lemma RolledBackItem(db: Tables, height: nat, item: Item)
    requires height in db.blocks.stored.header && height > 0
    requires KeyOf(db.addresses.addressId, item).Some? ==> KeyOf(db.addresses.addressId, item).value !in RollbackKeys(db, height)
    ensures LatestItem(RollbackTables(db, height), item) == LatestItem(db, item)
  {
    hide RollbackKeys, CommitBlocks, CommitAddressTxs, CommitState, LatestValue, KeyOf;
    match KeyOf(db.addresses.addressId, item)
    case None =>
    case Some(key) => RolledBackLatest(db, height, key);
  }

  /** A balance key that is rolled back belongs to a cached balance that is dropped. */
  lemma BalanceUntouched(db: Tables, height: nat, address: Address, asset: Option<AssetId>)
    requires AddressesStored(db.addresses) && ChangedAreKnown(db, height)
    requires (address, asset) !in StaleAfter(db, height).balances
    ensures var key := KeyOf(db.addresses.addressId, BalanceOf(address, asset)); key.Some? ==> key.value !in RollbackKeys(db, height)
  {
    hide AssetList, ChangedDataKeys, TransactionsAt, UndoneByTransactions, ChangedAddresses;
    var key := KeyOf(db.addresses.addressId, BalanceOf(address, asset));
    if key.Some? {
      var id := db.addresses.addressId[address];
      ChainState.NotATransactionKey(db.addresses.addressId, Bare(TransactionsAt(db.blocks.stored, height)), key.value);
      assert Lookup(db.addresses.idToAddress, id) == Some(address);
    }
  }

  lemma AddressUntouched(db: Tables, height: nat, address: Address)
    requires AddressesStored(db.addresses) && ChangedAreKnown(db, height)
    requires address !in StaleAfter(db, height).portfolios
    ensures var key := KeyOf(db.addresses.addressId, LeaseOf(address)); key.Some? ==> key.value !in RollbackKeys(db, height)
    ensures forall asset :: (address, asset) !in StaleAfter(db, height).balances
  {
    hide AssetList, ChangedDataKeys, TransactionsAt, UndoneByTransactions, ChangedAddresses;
    var key := KeyOf(db.addresses.addressId, LeaseOf(address));
    if key.Some? {
      ChainState.NotATransactionKey(db.addresses.addressId, Bare(TransactionsAt(db.blocks.stored, height)), key.value);
    }
  }

  lemma {:induction false} TransactionsIn(txs: seq<Transaction>, i: nat)
    requires i < |txs|
    ensures OrdersOf(txs[i]) <= OrdersIn(txs) && ScriptsOf(txs[i]) <= ScriptsIn(txs) && AssetScriptsOf(txs[i]) <= AssetScriptsIn(txs)
  {
    if i > 0 {
      TransactionsIn(txs[1..], i - 1);
    }
  }

  lemma ByTransactionUntouched(db: Tables, height: nat, item: Item)
    requires AddressesStored(db.addresses) && ChangedAreKnown(db, height)
    requires match item
             case ScriptOf(address) => address !in StaleAfter(db, height).scripts
             case Keyed(AssetScript(asset)) => asset !in StaleAfter(db, height).assetScripts
             case Keyed(FilledVolumeAndFee(order)) => order !in StaleAfter(db, height).orders
             case _ => false
    ensures var key := KeyOf(db.addresses.addressId, item); key.Some? ==> key.value !in RollbackKeys(db, height)
  {
    hide TransactionsAt, ChangedAddresses, UndoneForAddresses, BalancesToInvalidate, PortfoliosToInvalidate;
    var key := KeyOf(db.addresses.addressId, item);
    var txs := Bare(TransactionsAt(db.blocks.stored, height));
    if key.Some? {
      ChainState.NotAnAddressKey(db.state, height, ChangedAddresses(db.state, height), key.value);
      forall i: nat | i < |txs| ensures key.value !in UndoneByTransaction(db.addresses.addressId, txs[i]) {
        TransactionsIn(txs, i);
      }
    }
  }

  lemma PortfolioRolledBack(db: Tables, height: nat, address: Address)
    requires height in db.blocks.stored.header && height > 0
    requires AddressesStored(db.addresses) && ChangedAreKnown(db, height)
    requires address !in StaleAfter(db, height).portfolios
    ensures LoadPortfolio(RollbackTables(db, height), address) == LoadPortfolio(db, address)
  {
    hide RollbackKeys, StaleAfter, LatestItem, AddressesStored, CommitBlocks, CommitAddressTxs, Commit;
    AddressUntouched(db, height, address);
    RolledBackItem(db, height, LeaseOf(address));
    forall asset ensures LoadBalance(RollbackTables(db, height), address, asset) == LoadBalance(db, address, asset) {
      BalanceUntouched(db, height, address, asset);
      RolledBackItem(db, height, BalanceOf(address, asset));
    }
  }

  lemma RollbackKeepsBalancesCoherent(c: CacheTables, db: Tables, height: nat)
    requires BalancesCoherent(c, db) && AddressesStored(db.addresses) && ChangedAreKnown(db, height)
    requires height in db.blocks.stored.header && height > 0
    ensures BalancesCoherent(CachesAfterRollback(c, StaleAfter(db, height), height), RollbackTables(db, height))
  {
    hide RollbackKeys, StaleAfter, LatestItem, AddressesStored, ChangedAreKnown, RollbackTables, LoadPortfolio;
    var stale, after := StaleAfter(db, height), RollbackTables(db, height);
    var c' := CachesAfterRollback(c, stale, height);
    forall k | k in c'.balances ensures c'.balances[k] == LoadBalance(after, k.0, k.1) {
      BalanceUntouched(db, height, k.0, k.1);
      RolledBackItem(db, height, BalanceOf(k.0, k.1));
    }
    forall a | a in c'.leases ensures c'.leases[a] == LoadLeaseBalance(after, a) {
      AddressUntouched(db, height, a);
      RolledBackItem(db, height, LeaseOf(a));
    }
    forall a | a in c'.portfolios ensures c'.portfolios[a] == LoadPortfolio(after, a) {
      PortfolioRolledBack(db, height, a);
    }
  }

  lemma RollbackKeepsOthersCoherent(c: CacheTables, db: Tables, height: nat)
    requires OthersCoherent(c, db) && AddressesStored(db.addresses) && ChangedAreKnown(db, height)
    requires height in db.blocks.stored.header && height > 0
    ensures OthersCoherent(CachesAfterRollback(c, StaleAfter(db, height), height), RollbackTables(db, height))
  {
    hide RollbackKeys, StaleAfter, LatestItem, AddressesStored, ChangedAreKnown, CommitState, CommitBlocks, CommitAddressTxs, RollbackBlockBatch;
    var stale, after := StaleAfter(db, height), RollbackTables(db, height);
    var c' := CachesAfterRollback(c, stale, height);
    forall order | order in c'.fills ensures c'.fills[order] == LoadVolumeAndFee(after, order) {
      ByTransactionUntouched(db, height, Keyed(FilledVolumeAndFee(order)));
      RolledBackItem(db, height, Keyed(FilledVolumeAndFee(order)));
    }
    forall a | a in c'.scripts ensures c'.scripts[a] == LoadScript(after, a) {
      ByTransactionUntouched(db, height, ScriptOf(a));
      RolledBackItem(db, height, ScriptOf(a));
    }
    forall asset | asset in c'.assetScripts ensures c'.assetScripts[asset] == LoadAssetScript(after, asset) {
      ByTransactionUntouched(db, height, Keyed(AssetScript(asset)));
      RolledBackItem(db, height, Keyed(AssetScript(asset)));
    }
  }

  /** The caches stay coherent when a block is rolled back, whatever its rollback restores. */
  lemma RollbackKeepsCoherence(c: CacheTables, db: Tables, height: nat)
    requires Coherent(c, db) && AddressesStored(db.addresses) && ChangedAreKnown(db, height)
    requires height in db.blocks.stored.header && height > 0
    ensures Coherent(CachesAfterRollback(c, StaleAfter(db, height), height), RollbackTables(db, height))
  {
    hide BalancesCoherent, OthersCoherent, StaleAfter, CachesAfterRollback, RollbackTables;
    RollbackKeepsBalancesCoherent(c, db, height);
    RollbackKeepsOthersCoherent(c, db, height);
  }
}
