/**
 Coverage by the difference and the block that append is called with: what their rollback undoes can be told before they are
 appended. For every item, where its value survives from when blocks are rolled back.
 */
module DiffCoverage {
  import opened Common
  import opened Types
  import opened Versions
  import opened Tables
  import opened Batches
  import opened ChainBlocks
  import opened ChainState
  import opened ChainNode
  import opened ChainRuns
  import opened Survivors
  import opened Diffs

  /** The difference changes a lease balance or an asset balance of the portfolio. */
  predicate ChangesBeyondNative(p: Portfolio) {
    p.lease != NO_LEASES || exists asset :: asset in p.assets && p.assets[asset] != 0
  }

  predicate SetsScript(txs: seq<Transaction>, a: Address) {
    exists i :: 0 <= i < |txs| && txs[i].payload == SetScript(a)
  }

  /** The scripts of accounts are set by SetScript transactions of the block. */
  predicate ScriptsSet(diff: Diff, txs: seq<Transaction>) {
    forall a :: a in diff.scripts ==> SetsScript(txs, a)
  }

  /** What else a difference changes, apart from what addresses have. */
  function KeyedChanges(diff: Diff): set<VersionKey> {
    (set asset | asset in diff.issuedAssets :: AssetInfoOf(asset))
    + (set lease | lease in diff.leaseState :: LeaseStatus(lease))
    + (set order | order in diff.orderFills :: FilledVolumeAndFee(order))
    + (set asset | asset in diff.assetScripts :: AssetScript(asset))
    + (set asset | asset in diff.sponsorship && diff.sponsorship[asset].Some? :: SponsorshipOf(asset))
  }

  /**
   What the rollback of a transaction takes back, apart from what it takes back of addresses: an exchange the fills of both its orders,
   an issue, reissue or burn the asset's info, a lease or its cancellation the lease's status, and so on.
   */
  predicate Reverts(tx: Transaction, key: VersionKey) {
    match key
    case AssetInfoOf(asset) => (tx.payload.Issue? && tx.id == asset) || tx.payload == Reissue(asset) || tx.payload == Burn(asset)
    case LeaseStatus(lease) => (tx.payload.Lease? && tx.id == lease) || tx.payload == LeaseCancel(lease)
    case FilledVolumeAndFee(order) => tx.payload.Exchange? && (tx.payload.buyOrder == order || tx.payload.sellOrder == order)
    case AssetScript(asset) => tx.payload == SetAssetScript(asset)
    case SponsorshipOf(asset) => tx.payload == SponsorFee(asset)
    case _ => false
  }

  predicate KeyReverted(txs: seq<Transaction>, key: VersionKey) {
    exists i :: 0 <= i < |txs| && Reverts(txs[i], key)
  }

  /**
   Whoever has a lease balance, an asset balance or a data entry changed has a transaction or a changed native balance, scripts
   are those that transactions set, and for everything else there is a transaction whose rollback takes it back.
   */
  predicate DiffCovered(diff: Diff, txs: seq<Transaction>) {
    && (forall a :: a in diff.portfolios && ChangesBeyondNative(diff.portfolios[a]) ==> RecordsAddress(diff, a))
    && (forall a :: a in diff.accountData && diff.accountData[a].Keys != {} ==> RecordsAddress(diff, a))
    && ScriptsSet(diff, txs)
    && forall key :: key in KeyedChanges(diff) ==> KeyReverted(txs, key)
  }

  // ---- item by item ----

  predicate ItemUndone(diff: Diff, txs: seq<Transaction>, item: Item) {
    match item
    case BalanceOf(a, _) => RecordsAddress(diff, a)
    case LeaseOf(a) => RecordsAddress(diff, a)
    case DataOf(a, _) => RecordsAddress(diff, a)
    case ScriptOf(a) => SetsScript(txs, a)
    case Keyed(key) => key.CarryFee? || KeyReverted(txs, key)
  }

  lemma DiffCoveredItems(diff: Diff, txs: seq<Transaction>)
    ensures DiffCovered(diff, txs) <==> forall item :: Touches(diff, item) ==> ItemUndone(diff, txs, item)
  {
    if DiffCovered(diff, txs) {
      forall item | Touches(diff, item) ensures ItemUndone(diff, txs, item) {
        CoveredItem(diff, txs, item);
      }
    }
    if forall item :: Touches(diff, item) ==> ItemUndone(diff, txs, item) {
      AllItemsUndone(diff, txs);
    }
  }

  lemma CoveredItem(diff: Diff, txs: seq<Transaction>, item: Item)
    requires DiffCovered(diff, txs) && Touches(diff, item)
    ensures ItemUndone(diff, txs, item)
  {
    hide KeyReverted, SetsScript;
    match item
    case BalanceOf(a, Some(asset)) => assert ChangesBeyondNative(diff.portfolios[a]);
    case DataOf(a, name) => assert name in diff.accountData[a].Keys;
    case Keyed(key) =>
      if !key.CarryFee? { assert key in KeyedChanges(diff); }
    case _ =>
  }

  lemma AllItemsUndone(diff: Diff, txs: seq<Transaction>)
    requires forall item :: Touches(diff, item) ==> ItemUndone(diff, txs, item)
    ensures DiffCovered(diff, txs)
  {
    hide KeyReverted, SetsScript, RecordsAddress;
    forall a | a in diff.portfolios && ChangesBeyondNative(diff.portfolios[a]) ensures RecordsAddress(diff, a) {
      if diff.portfolios[a].lease != NO_LEASES {
        assert Touches(diff, LeaseOf(a));
      } else {
        var asset :| asset in diff.portfolios[a].assets && diff.portfolios[a].assets[asset] != 0;
        assert Touches(diff, BalanceOf(a, Some(asset)));
      }
    }
    forall a | a in diff.accountData && diff.accountData[a].Keys != {} ensures RecordsAddress(diff, a) {
      var name :| name in diff.accountData[a].Keys;
      assert Touches(diff, DataOf(a, name));
    }
    forall a | a in diff.scripts ensures SetsScript(txs, a) {
      assert Touches(diff, ScriptOf(a));
    }
    forall key | key in KeyedChanges(diff) ensures KeyReverted(txs, key) {
      assert Touches(diff, Keyed(key));
    }
  }

  // ---- the update of a difference ----

  /** The rollback branches discard exactly these keys, apart from those about addresses and the carry fee. */
  lemma RevertedIsUndone(ids: map<Address, nat>, txs: seq<Transaction>, key: VersionKey)
    requires !key.AddressScript?
    ensures key in UndoneByTransactions(ids, txs) <==> KeyReverted(txs, key)
  {
    if key in UndoneByTransactions(ids, txs) {
      var i :| 0 <= i < |txs| && key in UndoneByTransaction(ids, txs[i]);
      assert Reverts(txs[i], key);
    }
    if KeyReverted(txs, key) {
      var i :| 0 <= i < |txs| && Reverts(txs[i], key);
      assert key in UndoneByTransaction(ids, txs[i]);
    }
  }

  lemma ScriptUndone(ids: map<Address, nat>, txs: seq<Transaction>, a: Address)
    requires Injective(ids) && a in ids
    ensures AddressScript(ids[a]) in UndoneByTransactions(ids, txs) <==> SetsScript(txs, a)
  {
    var key := AddressScript(ids[a]);
    if key in UndoneByTransactions(ids, txs) {
      var i :| 0 <= i < |txs| && key in UndoneByTransaction(ids, txs[i]);
      assert txs[i].payload == SetScript(a);
    }
    if SetsScript(txs, a) {
      var i :| 0 <= i < |txs| && txs[i].payload == SetScript(a);
      assert key in UndoneByTransaction(ids, txs[i]);
    }
  }

  lemma UndoneAlike(u: Update, diff: Diff, ids: map<Address, nat>, item: Item, key: VersionKey)
    requires RecordsDelta(u, diff, ids) && Injective(ids) && KeyOf(ids, item) == Some(key)
    ensures IsUndone(u, ids, key) <==> ItemUndone(diff, u.block.transactions, item)
  {
    hide UndoneByTransactions, KeyReverted, SetsScript, RecordsAddress, RecordedAddresses, Injective;
    if item.ScriptOf? {
      ScriptUndone(ids, u.block.transactions, item.address);
    } else if item.Keyed? {
      RevertedIsUndone(ids, u.block.transactions, key);
      UndoneCarryFee(u, ids);
    }
  }

  lemma UndoneCarryFee(u: Update, ids: map<Address, nat>)
    ensures IsUndone(u, ids, CarryFee)
  {
  }

  lemma ItemOfKey(changes: Changes, diff: Diff, ids: map<Address, nat>, key: VersionKey) returns (item: Item)
    requires Matched(changes, diff, ids) && key in changes
    ensures KeyOf(ids, item) == Some(key)
  {
    hide Touches;
    if AboutAddress(key) {
      assert Known(ids, key.addressId);
      var a :| a in ids && ids[a] == key.addressId;
      item := match key
        case EarthsBalance(_) => BalanceOf(a, None)
        case AssetBalance(_, asset) => BalanceOf(a, Some(asset))
        case LeaseBalanceOf(_) => LeaseOf(a)
        case AddressScript(_) => ScriptOf(a)
        case Data(_, name) => DataOf(a, name)
        case _ => Keyed(key);
    } else {
      item := Keyed(key);
    }
  }

  lemma MatchedItem(changes: Changes, diff: Diff, ids: map<Address, nat>, item: Item)
    requires Matched(changes, diff, ids)
    ensures match KeyOf(ids, item)
            case None => !Touches(diff, item)
            case Some(key) => key in changes <==> Touches(diff, item)
  {
    hide Touches, KeyOf;
  }

  /** A block is covered exactly if its difference is. */
  lemma CoveredByDiff(chain: Chain, diff: Diff, ids: map<Address, nat>)
    requires chain.Grown? && chain.changes.Keys == ChangedKeys(chain.update) && Injective(ids)
    requires Matched(chain.changes, diff, ids) && RecordsDelta(chain.update, diff, ids)
    ensures Covered(chain.update, ids) <==> DiffCovered(diff, chain.Block().transactions)
  {
    hide Matched, RecordsDelta, Injective, IsChanged, IsUndone, ItemUndone, Touches, ChangedKeys, KeyOf, DiffCovered;
    var u, txs := chain.update, chain.Block().transactions;
    DiffCoveredItems(diff, txs);
    if Covered(u, ids) {
      forall item | Touches(diff, item) ensures ItemUndone(diff, txs, item) {
        MatchedItem(chain.changes, diff, ids, item);
        var key := KeyOf(ids, item).value;
        ChangedKeysAre(u, key);
        UndoneAlike(u, diff, ids, item, key);
      }
    }
    if DiffCovered(diff, txs) {
      forall key | IsChanged(u, key) ensures IsUndone(u, ids, key) {
        ChangedKeysAre(u, key);
        var item := ItemOfKey(chain.changes, diff, ids, key);
        MatchedItem(chain.changes, diff, ids, item);
        UndoneAlike(u, diff, ids, item, key);
      }
    }
  }

  // ---- rollbacks of any depth ----

  ghost predicate DiffsCoveredAbove(chain: Chain, deltas: seq<Delta>, target: nat)
    requires |deltas| == chain.Height()
  {
    chain.Height() > target ==>
      && DiffCovered(deltas[|deltas| - 1].diff, chain.Block().transactions)
      && DiffsCoveredAbove(chain.below, deltas[..|deltas| - 1], target)
  }

  /** How many of the differences the value of an item comes from when the blocks above the target are rolled back. */
  ghost function Surviving(chain: Chain, deltas: seq<Delta>, item: Item, target: nat): (r: nat)
    requires |deltas| == chain.Height() && target <= chain.Height()
    ensures target <= r <= |deltas|
  {
    if chain.Height() == target then target else
    var diff := deltas[|deltas| - 1].diff;
    if Touches(diff, item) && !ItemUndone(diff, chain.Block().transactions, item) then chain.Height()
    else Surviving(chain.below, deltas[..|deltas| - 1], item, target)
  }

  /** Every discarded block that touched the item has the transactions, or records the address, that its rollback needs. */
  ghost predicate UndoneAbove(chain: Chain, deltas: seq<Delta>, item: Item, target: nat)
    requires |deltas| == chain.Height()
  {
    forall i :: target <= i < |deltas| && Touches(deltas[i].diff, item) ==> UndoneIn(chain, deltas, item, i)
  }

  ghost predicate UndoneIn(chain: Chain, deltas: seq<Delta>, item: Item, i: nat)
    requires i < |deltas| == chain.Height()
  {
    var top := chain.Upto(i + 1);
    top.Grown? && ItemUndone(deltas[i].diff, top.Block().transactions, item)
  }

  lemma {:induction false} UndoneAboveExactly(chain: Chain, deltas: seq<Delta>, item: Item, target: nat)
    requires |deltas| == chain.Height() && target <= chain.Height()
    ensures UndoneAbove(chain, deltas, item, target) <==> Surviving(chain, deltas, item, target) == target
  {
    hide Touches, ItemUndone;
    if chain.Height() > target {
      var below, last := deltas[..|deltas| - 1], |deltas| - 1;
      UndoneAboveExactly(chain.below, below, item, target);
      forall i: nat | i < last ensures UndoneIn(chain, deltas, item, i) <==> UndoneIn(chain.below, below, item, i) {
      }
      assert UndoneIn(chain, deltas, item, last) <==> ItemUndone(deltas[last].diff, chain.Block().transactions, item);
    }
  }

  lemma {:induction false} CoveredAboveByDiffs(s: State, chain: Chain, deltas: seq<Delta>, ids: map<Address, nat>, target: nat)
    requires Recorded(s, chain) && MatchesDeltas(chain, deltas, ids) && Injective(ids)
    ensures CoveredAbove(chain, target, ids) <==> DiffsCoveredAbove(chain, deltas, target)
  {
    hide RecordedBlock, Matched, RecordsDelta, Injective, Covered, DiffCovered, ChangedKeys;
    if chain.Height() > target {
      CoveredByDiff(chain, deltas[|deltas| - 1].diff, ids);
      CoveredAboveByDiffs(s, chain.below, deltas[..|deltas| - 1], ids, target);
    }
  }

  lemma {:induction false} SurvivingIsSurvivor(s: State, chain: Chain, deltas: seq<Delta>, ids: map<Address, nat>, item: Item, key: VersionKey, target: nat)
    requires Recorded(s, chain) && MatchesDeltas(chain, deltas, ids) && Injective(ids)
    requires KeyOf(ids, item) == Some(key) && target <= chain.Height()
    ensures Surviving(chain, deltas, item, target) == Survivor(chain, key, target, ids)
  {
    hide RecordedBlock, Matched, RecordsDelta, Injective, ChangedKeys, KeyOf, IsChanged, IsUndone, Touches, ItemUndone;
    if chain.Height() > target {
      var delta := deltas[|deltas| - 1];
      MatchedItem(chain.changes, delta.diff, ids, item);
      ChangedKeysAre(chain.update, key);
      UndoneAlike(chain.update, delta.diff, ids, item, key);
      SurvivingIsSurvivor(s, chain.below, deltas[..|deltas| - 1], ids, item, key, target);
    }
  }

  lemma AnchoredIsRecorded(db: Tables, chain: Chain)
    requires Anchored(db, chain)
    ensures Recorded(db.state, chain)
  {
    hide Recorded;
  }

  lemma {:induction false} ValueOfUpto(chain: Chain, key: VersionKey, height: nat)
    requires height <= chain.Height()
    ensures ValueAt(Deltas(chain.Upto(height)), key, height) == ValueAt(Deltas(chain), key, height)
  {
    hide ValueAt;
    if height < chain.Height() {
      ValueOfUpto(chain.below, key, height);
      SamePrefix(Deltas(chain.below), Deltas(chain), key, height);
    }
  }
}
