/**
 Runs of the node's store on which a rollback leaves values of the blocks it discards: an issue with a script, a generator
 paid in an asset only, and a block that cancels all leases.
 */
module Runs {
  import opened Common
  import opened Types
  import opened Versions
  import opened Tables
  import opened Batches
  import opened ChainBlocks
  import opened ChainNode
  import opened ChainRuns
  import opened Diffs
  import opened DiffCoverage
  import opened Node
  import ChainState
  import Coherence
  import Updates
  import Exactness
  import Leftovers
  import opened HeightCaches

  const ISSUER: Address := [1]
  const PAYEE: Address := [2]
  const GENERATOR: Address := [3]
  const EMPTY_DIFF := Diff(map[], map[], map[], map[], map[], map[], map[], map[], map[])

  function Coins(amount: int): Portfolio { Portfolio(amount, NO_LEASES, map[]) }

  function BlockOf(height: nat, txs: seq<Transaction>): Block {
    Block(Header(seq(height, _ => 0 as byte), 0, 1, |txs|), txs)
  }

  // ---- appending blocks whose ids grow ----

  /** The ids of the blocks on the chain are no longer than the chain is high. */
  ghost predicate ShortIds(chain: Chain) {
    forall id :: id in BlockIds(chain) ==> |id| <= chain.Height()
  }

  lemma NextFits(db: Tables, chain: Chain, deltas: seq<Delta>, txs: seq<Transaction>)
    requires Based(db, chain, deltas) && ShortIds(chain)
    requires TransactionIds(txs) !! AllTransactionIds(chain) && DistinctIds(txs) && (chain.Height() > 0 ==> NoGenesis(BlockOf(1, txs)))
    ensures db.blocks.height == chain.Height() == LoadCurrent(db).height && |deltas| == chain.Height()
    ensures Fresh(db.blocks.stored, BlockOf(chain.Height() + 1, txs), db.blocks.height + 1)
  {
    hide ChainState.Recorded, AllChangedKnown, Matched, RecordsDelta, Counted, ValidChain, Replay, BlockIds, AllTransactionIds, TransactionIds, DistinctIds, Fresh;
    NewIsFresh(db.blocks, chain, BlockOf(chain.Height() + 1, txs));
  }

  function Higher(x: int, y: int): int { if x < y then y else x }

  lemma SafeAfter(db: Tables, u: Update, maxRollbackDepth: nat)
    requires Acceptable(db, u)
    ensures After(db, u, maxRollbackDepth).blocks.safeRollbackHeight == Higher(db.blocks.safeRollbackHeight, db.blocks.height + 1 - maxRollbackDepth)
  {
    hide CommitBlocks, CommitState, CommitAddressTxs, AppendStateBatch, AppendAddressTxBatch, AppendIndexes, AppendAddresses, DistinctIds, Fresh,
      SpeaksOfKnown;
  }

  lemma IdsStay(db: Tables, chain: Chain, deltas: seq<Delta>, u: Update, maxRollbackDepth: nat)
    requires Based(db, chain, deltas) && Acceptable(db, u)
    ensures forall a :: a in db.addresses.addressId ==>
              Lookup(After(db, u, maxRollbackDepth).addresses.addressId, a) == Lookup(db.addresses.addressId, a)
  {
    hide Anchored, Acceptable, After;
    forall a | a in db.addresses.addressId
      ensures Lookup(After(db, u, maxRollbackDepth).addresses.addressId, a) == Lookup(db.addresses.addressId, a)
    {
      Coherence.AddressesAfter(db, chain, u, maxRollbackDepth, a);
    }
  }

  /** Appends the next block of a run. */
  method Grow(store: LevelDBWriter, diff: Diff, txs: seq<Transaction>)
    requires store.Usable() && ShortIds(store.chain) && (store.Valid() || Coherence.Ready(store.db, diff, store.maxRollbackDepth))
    requires TransactionIds(txs) !! AllTransactionIds(store.chain) && DistinctIds(txs)
    requires store.chain.Height() > 0 ==> NoGenesis(BlockOf(1, txs))
    requires diff.transactions.Keys <= TransactionIds(txs) && diff.scripts == map[] && diff.accountData == map[]
    modifies store
    ensures store.Usable() && (old(store.Valid()) ==> store.Valid())
    ensures ShortIds(store.chain) && store.deltas == old(store.deltas) + [Delta(diff, 0)]
    ensures store.chain.Height() == old(store.chain).Height() + 1 && old(store.chain).Height() == old(store.db).blocks.height
    ensures store.db.blocks.safeRollbackHeight ==
            Higher(old(store.db).blocks.safeRollbackHeight, store.chain.Height() - store.maxRollbackDepth)
    ensures store.chain.Grown? && store.chain.below == old(store.chain) && store.chain.Block() == BlockOf(store.chain.Height(), txs)
    ensures AllTransactionIds(store.chain) == AllTransactionIds(old(store.chain)) + TransactionIds(txs)
    ensures AtHeights(store.caches) == old(AtHeights(store.caches))
    ensures forall a :: a in old(store.db).addresses.addressId ==> Lookup(store.db.addresses.addressId, a) == Lookup(old(store.db).addresses.addressId, a)
    ensures AppliedWhereReady(old(store.db), Delta(diff, 0), store.maxRollbackDepth, store.db)
    ensures Acceptable(old(store.db), store.chain.update) && store.db == After(old(store.db), store.chain.update, store.maxRollbackDepth)
  {
    hide Meant, HeightsCoherent, Coherence.Coherent, LoadCurrent, Fresh, Acceptable, After, TransactionIds, DistinctIds, NoGenesis,
      ChangesOf, ChangedKeys, Based, Updates.ListedByAddress, AtHeights, Updates.Touched, AppliedWhereReady, StayExact, Coherence.Ready, Lawful;
    NextFits(store.db, store.chain, store.deltas, txs);
    ghost var db := store.db;
    store.Append(diff, 0, BlockOf(store.current.height + 1, txs));
    SafeAfter(db, store.chain.update, store.maxRollbackDepth);
    IdsStay(db, old(store.chain), old(store.deltas), store.chain.update, store.maxRollbackDepth);
  }

  lemma TargetIsKnown(db: Tables, chain: Chain, deltas: seq<Delta>, target: nat)
    requires Based(db, chain, deltas) && 1 <= target <= chain.Height()
    ensures chain.Upto(target).Grown? && Lookup(db.blocks.stored.heightOf, chain.Upto(target).Block().header.id) == Some(target)
    ensures |deltas| == chain.Height()
  {
    hide ChainState.Recorded, AllChangedKnown, Matched, RecordsDelta, Counted, ValidChain, Replay;
    BlockHeight(chain, target);
  }

  /** Rolls a run back to the block at a height. */
  method GoBack(store: LevelDBWriter, target: nat)
    requires store.Valid() && store.db.blocks.safeRollbackHeight < target <= store.chain.Height()
    requires store.chain.Upto(target).Grown? && store.chain.Upto(target).Block().header.id == BlockOf(target, []).header.id
    modifies store
    ensures store.Usable() && |old(store.deltas)| == old(store.chain).Height()
    ensures store.chain == old(store.chain).Upto(target) && store.deltas == old(store.deltas)[..target]
    ensures store.db.addresses == old(store.db).addresses && store.db.blocks.safeRollbackHeight == old(store.db).blocks.safeRollbackHeight
    ensures forall item :: LatestItem(store.db, item) == Fold(old(store.deltas)[..Surviving(old(store.chain), old(store.deltas), item, target)], item)
    ensures AtHeights(store.caches) == HeightsLeft(old(store.caches), old(store.db), target)
    ensures store.Valid() <==> DiffsCoveredAbove(old(store.chain), old(store.deltas), target)
    ensures store.db == RolledBack(old(store.db), target)
  {
    hide Meant, HeightsCoherent, Coherence.Coherent, LoadCurrent, Based, LatestItem, Fold, Surviving, DiffsCoveredAbove, HeightsLeft,
      AtHeights, ItemsRolledBack, Lawful, RolledBack;
    TargetIsKnown(store.db, store.chain, store.deltas, target);
    ghost var before, chain, deltas := store.db, store.chain, store.deltas;
    forall item ensures Exactness.Exact(before, chain, deltas, item) {
      store.ValidIsExact(item);
    }
    var r := store.RollbackTo(BlockOf(target, []).header.id);
    FieldsStay(before, chain, deltas, target);
    AllFolds(before, chain, deltas, target, store.db);
  }

  lemma FieldsStay(db: Tables, chain: Chain, deltas: seq<Delta>, target: nat)
    requires Based(db, chain, deltas) && db.blocks.safeRollbackHeight < target <= chain.Height()
    ensures RolledBack(db, target).addresses == db.addresses
    ensures RolledBack(db, target).blocks.safeRollbackHeight == db.blocks.safeRollbackHeight
  {
    hide Anchored, MatchesDeltas, AllChangedKnown, Counted, ScriptsStored, Exactness.Exact, RolledBack, Stored, CoveredAbove;
    RollbackToTarget(db, chain, target);
  }

  lemma AllFolds(before: Tables, chain: Chain, deltas: seq<Delta>, target: nat, after: Tables)
    requires |deltas| == chain.Height() && target <= chain.Height() && ItemsRolledBack(before, chain, deltas, target, after)
    requires forall item :: Exactness.Exact(before, chain, deltas, item)
    ensures forall item :: LatestItem(after, item) == Fold(deltas[..Surviving(chain, deltas, item, target)], item)
  {
    hide Exactness.Exact, LatestItem, Fold, Surviving, UndoneAbove, Leftovers.ItemLeft;
    forall item ensures LatestItem(after, item) == Fold(deltas[..Surviving(chain, deltas, item, target)], item) {
      assert Exactness.Exact(before, chain, deltas, item);
      assert ItemRolledBack(before, chain, deltas, target, after, item);
    }
  }

  lemma OneId(tx: Transaction)
    ensures TransactionIds([tx]) == {tx.id} && DistinctIds([tx])
  {
    assert [tx][0].id in TransactionIds([tx]);
  }

  /** A new store that a block of genesis transactions has been appended to. */
  method Open(maxRollbackDepth: nat, diff: Diff, genesis: Transaction) returns (store: LevelDBWriter)
    requires diff.transactions.Keys <= {genesis.id} && diff.scripts == map[] && diff.accountData == map[]
    ensures fresh(store) && store.Valid() && ShortIds(store.chain) && store.maxRollbackDepth == maxRollbackDepth
    ensures AtHeights(store.caches) == (map[], map[]) && store.deltas == [Delta(diff, 0)] && store.chain.Grown? && store.chain.below == Start && store.chain.Block() == BlockOf(1, [genesis])
    ensures AllTransactionIds(store.chain) == {genesis.id} && store.chain.Height() == 1
    ensures store.db.blocks.safeRollbackHeight == Higher(0, 1 - maxRollbackDepth)
  {
    hide Meant, HeightsCoherent, Coherence.Coherent, LoadCurrent, Based, After, Acceptable, AtHeights;
    NothingStored();
    store := new LevelDBWriter(EmptyTables(), maxRollbackDepth, Start, []);
    OneId(genesis);
    Grow(store, diff, [genesis]);
  }

  // ---- reading several values of a run ----

  function Read(db: Tables, items: seq<Item>): (r: seq<Option<Value>>)
    ensures |r| == |items| && forall i :: 0 <= i < |r| ==> r[i] == LatestItem(db, items[i])
  {
    seq(|items|, i requires 0 <= i < |items| => LatestItem(db, items[i]))
  }

  ghost function FoldAll(deltas: seq<Delta>, items: seq<Item>): (r: seq<Option<Value>>)
    ensures |r| == |items| && forall i :: 0 <= i < |r| ==> r[i] == Fold(deltas, items[i])
  {
    seq(|items|, i requires 0 <= i < |items| => Fold(deltas, items[i]))
  }

  lemma ReadIsFold(db: Tables, chain: Chain, deltas: seq<Delta>, items: seq<Item>)
    requires Faithful(db, chain, deltas)
    ensures Read(db, items) == FoldAll(deltas, items)
  {
    hide Based, Meant, LatestItem, Fold;
    forall i | 0 <= i < |items| ensures Read(db, items)[i] == FoldAll(deltas, items)[i] {
      ItemIsFold(db, chain, deltas, items[i]);
    }
  }

  lemma FoldMore(deltas: seq<Delta>, delta: Delta, items: seq<Item>, i: nat)
    requires i < |items|
    ensures FoldAll(deltas + [delta], items)[i] == Applied(delta, items[i], FoldAll(deltas, items)[i])
  {
    hide Applied;
    assert (deltas + [delta])[..|deltas|] == deltas;
  }

  lemma FoldNone(items: seq<Item>, i: nat)
    requires i < |items|
    ensures FoldAll([], items)[i] == None
  {
  }

  /** When one block is rolled back, a value survives exactly if the difference touched it and the rollback does not undo that. */
  lemma SurvivingOne(chain: Chain, deltas: seq<Delta>, delta: Delta, item: Item)
    requires |deltas| + 1 == chain.Height()
    ensures var all := deltas + [delta];
            Fold(all[..Surviving(chain, all, item, |deltas|)], item) ==
            if Touches(delta.diff, item) && !ItemUndone(delta.diff, chain.Block().transactions, item) then Fold(all, item) else Fold(deltas, item)
  {
    hide Touches, ItemUndone, Applied;
    var all := deltas + [delta];
    assert all[..|all|] == all && all[..|deltas|] == deltas;
  }

  /** What is read after the last block was rolled back. */
  lemma ReadBack(db: Tables, chain: Chain, deltas: seq<Delta>, delta: Delta, items: seq<Item>)
    requires |deltas| + 1 == chain.Height()
    requires var all := deltas + [delta];
             forall item :: LatestItem(db, item) == Fold(all[..Surviving(chain, all, item, |deltas|)], item)
    ensures forall i :: 0 <= i < |items| ==>
              Read(db, items)[i] ==
              if Touches(delta.diff, items[i]) && !ItemUndone(delta.diff, chain.Block().transactions, items[i])
              then FoldAll(deltas + [delta], items)[i] else FoldAll(deltas, items)[i]
  {
    hide LatestItem, Fold, Surviving, Touches, ItemUndone;
    forall i | 0 <= i < |items|
      ensures Read(db, items)[i] ==
              if Touches(delta.diff, items[i]) && !ItemUndone(delta.diff, chain.Block().transactions, items[i])
              then FoldAll(deltas + [delta], items)[i] else FoldAll(deltas, items)[i]
    {
      SurvivingOne(chain, deltas, delta, items[i]);
    }
  }

  // ---- an issue with a script ----

  const GENESIS_TX := Transaction([10], 1, 0, Genesis)
  const GENESIS_DELTA := Delta(EMPTY_DIFF.(transactions := map[[10] := (GENESIS_TX, {ISSUER})], portfolios := map[ISSUER := Coins(1000)]), 0)
  const ASSET: AssetId := [11]
  const ISSUE_TX := Transaction(ASSET, 3, 0, Issue)

  /** The issuer gets the asset and pays 100 to the generator. */
  function IssueDelta(scripts: map<AssetId, Option<Script>>): Delta {
    Delta(EMPTY_DIFF.(
      transactions := map[ASSET := (ISSUE_TX, {ISSUER})],
      portfolios := map[ISSUER := Portfolio(-100, NO_LEASES, map[ASSET := 500]), GENERATOR := Coins(100)],
      issuedAssets := map[ASSET := AssetInfo(false, 500)],
      assetScripts := scripts), 0)
  }

  /** The asset's info and script, and what the issuer and the generator hold of it. */
  const ASSET_ITEMS := [Keyed(AssetInfoOf(ASSET)), Keyed(AssetScript(ASSET)), BalanceOf(ISSUER, Some(ASSET)), BalanceOf(GENERATOR, Some(ASSET))]

  const ISSUED_INFO := Some(Info(AssetInfo(false, 500)))

  lemma AssetAtGenesis()
    ensures FoldAll([GENESIS_DELTA], ASSET_ITEMS) == [None, None, None, None]
  {
    hide Fold;
    assert [] + [GENESIS_DELTA] == [GENESIS_DELTA];
    forall i: nat | i < 4 ensures FoldAll([GENESIS_DELTA], ASSET_ITEMS)[i] == None {
      FoldNone(ASSET_ITEMS, i);
      FoldMore([], GENESIS_DELTA, ASSET_ITEMS, i);
    }
  }

  lemma AssetIssued(scripts: map<AssetId, Option<Script>>)
    ensures FoldAll([GENESIS_DELTA] + [IssueDelta(scripts)], ASSET_ITEMS) ==
            [ISSUED_INFO, if ASSET in scripts then CodeOf(scripts[ASSET]) else None, Some(Amount(500)), None]
  {
    hide Fold;
    AssetAtGenesis();
    FoldMore([GENESIS_DELTA], IssueDelta(scripts), ASSET_ITEMS, 0);
    FoldMore([GENESIS_DELTA], IssueDelta(scripts), ASSET_ITEMS, 1);
    FoldMore([GENESIS_DELTA], IssueDelta(scripts), ASSET_ITEMS, 2);
    FoldMore([GENESIS_DELTA], IssueDelta(scripts), ASSET_ITEMS, 3);
  }

  /**
   Block 2 issues an asset with a script. Rolling back to block 1 takes the asset and the issuer's balance of it away, but
   the script of the asset that is no more can still be read.
   */
  method IssueThenRollback() returns (before: seq<Option<Value>>, issued: seq<Option<Value>>, after: seq<Option<Value>>)
    ensures before == [None, None, None, None]
    ensures issued == [ISSUED_INFO, Some(Code([42])), Some(Amount(500)), None]
    ensures after == [None, Some(Code([42])), None, None]
  {
    hide Based, Meant, HeightsCoherent, Coherence.Coherent, LoadCurrent, After, Acceptable, AtHeights, HeightsLeft, RolledBack,
      AppliedWhereReady, Coherence.Ready, FoldAll, Fold, Read,
      Surviving, DiffsCoveredAbove, BlockIds, AllTransactionIds, ShortIds, LatestItem, TransactionIds, DistinctIds, IssueDelta, Touches, ItemUndone;
    var scripts := map[ASSET := Some([42])];
    ghost var delta := IssueDelta(scripts);
    var store := Open(100, GENESIS_DELTA.diff, GENESIS_TX);
    ReadIsFold(store.db, store.chain, store.deltas, ASSET_ITEMS);
    AssetAtGenesis();
    before := Read(store.db, ASSET_ITEMS);
    OneId(ISSUE_TX);
    IssueListed(scripts);
    Grow(store, IssueDelta(scripts).diff, [ISSUE_TX]);
    ReadIsFold(store.db, store.chain, store.deltas, ASSET_ITEMS);
    AssetIssued(scripts);
    issued := Read(store.db, ASSET_ITEMS);
    ghost var chain := store.chain;
    GoBack(store, 1);
    ReadBack(store.db, chain, [GENESIS_DELTA], delta, ASSET_ITEMS);
    IssueUndone(scripts);
    after := Read(store.db, ASSET_ITEMS);
  }

  lemma IssueListed(scripts: map<AssetId, Option<Script>>)
    ensures IssueDelta(scripts) == Delta(IssueDelta(scripts).diff, 0)
    ensures var diff := IssueDelta(scripts).diff; diff.transactions.Keys == {ASSET} && diff.scripts == map[] && diff.accountData == map[]
  {
  }

  lemma IssueUndone(scripts: map<AssetId, Option<Script>>)
    ensures var diff, txs := IssueDelta(scripts).diff, [ISSUE_TX];
            && ItemUndone(diff, txs, ASSET_ITEMS[0]) && ItemUndone(diff, txs, ASSET_ITEMS[2]) && !Touches(diff, ASSET_ITEMS[3])
            && !ItemUndone(diff, txs, ASSET_ITEMS[1]) && (ASSET in scripts <==> Touches(diff, ASSET_ITEMS[1]))
  {
    assert AssetInfoOf(ASSET) in UndoneByTransaction(map[], [ISSUE_TX][0]);
    assert ASSET in IssueDelta(scripts).diff.transactions;
  }

  // ---- a generator paid in an asset ----

  const TRANSFER_TX := Transaction([12], 4, 0, Transfer)

  /** The issuer sends 10 of the asset to the payee and pays 1 of it to the generator, as before the NG feature. */
  function FeeDelta(): Delta {
    Delta(EMPTY_DIFF.(
      transactions := map[[12] := (TRANSFER_TX, {ISSUER, PAYEE})],
      portfolios := map[ISSUER := Portfolio(0, NO_LEASES, map[ASSET := -11]), PAYEE := Portfolio(0, NO_LEASES, map[ASSET := 10]),
                        GENERATOR := Portfolio(0, NO_LEASES, map[ASSET := 1])]), 0)
  }

  lemma FeePaid(deltas: seq<Delta>)
    requires FoldAll(deltas, ASSET_ITEMS) == [ISSUED_INFO, None, Some(Amount(500)), None]
    ensures FoldAll(deltas + [FeeDelta()], ASSET_ITEMS) == [ISSUED_INFO, None, Some(Amount(489)), Some(Amount(1))]
    ensures ItemUndone(FeeDelta().diff, [TRANSFER_TX], ASSET_ITEMS[2])
    ensures Touches(FeeDelta().diff, ASSET_ITEMS[3]) && !ItemUndone(FeeDelta().diff, [TRANSFER_TX], ASSET_ITEMS[3])
  {
    hide Fold;
    FoldMore(deltas, FeeDelta(), ASSET_ITEMS, 0);
    FoldMore(deltas, FeeDelta(), ASSET_ITEMS, 1);
    FoldMore(deltas, FeeDelta(), ASSET_ITEMS, 2);
    FoldMore(deltas, FeeDelta(), ASSET_ITEMS, 3);
    assert [12] in FeeDelta().diff.transactions;
  }

  lemma FeeListed()
    ensures FeeDelta() == Delta(FeeDelta().diff, 0)
    ensures var diff := FeeDelta().diff; diff.transactions.Keys == {[12]} && diff.scripts == map[] && diff.accountData == map[]
    ensures TRANSFER_TX.id == [12]
  {
  }

  /**
   Block 3 pays its generator in an asset only. Rolling back to block 2 gives the fee back to the issuer but leaves it with
   the generator too: 501 are held of an asset of which 500 were issued.
   */
  method AssetFeeThenRollback() returns (before: seq<Option<Value>>, paid: seq<Option<Value>>, after: seq<Option<Value>>)
    ensures before == [ISSUED_INFO, None, Some(Amount(500)), None]
    ensures paid == [ISSUED_INFO, None, Some(Amount(489)), Some(Amount(1))]
    ensures after == [ISSUED_INFO, None, Some(Amount(500)), Some(Amount(1))]
  {
    hide Based, Meant, HeightsCoherent, Coherence.Coherent, LoadCurrent, After, Acceptable, AtHeights, HeightsLeft, RolledBack,
      AppliedWhereReady, Coherence.Ready, FoldAll, Fold, Read,
      Surviving, DiffsCoveredAbove, BlockIds, AllTransactionIds, ShortIds, LatestItem, TransactionIds, DistinctIds, IssueDelta, FeeDelta, Touches, ItemUndone;
    var store := Open(100, GENESIS_DELTA.diff, GENESIS_TX);
    OneId(ISSUE_TX);
    IssueListed(map[]);
    Grow(store, IssueDelta(map[]).diff, [ISSUE_TX]);
    ReadIsFold(store.db, store.chain, store.deltas, ASSET_ITEMS);
    AssetIssued(map[]);
    before := Read(store.db, ASSET_ITEMS);
    ghost var deltas := store.deltas;
    OneId(TRANSFER_TX);
    FeeListed();
    Grow(store, FeeDelta().diff, [TRANSFER_TX]);
    ReadIsFold(store.db, store.chain, store.deltas, ASSET_ITEMS);
    FeePaid(deltas);
    paid := Read(store.db, ASSET_ITEMS);
    ghost var chain := store.chain;
    GoBack(store, 2);
    ReadBack(store.db, chain, deltas, FeeDelta(), ASSET_ITEMS);
    after := Read(store.db, ASSET_ITEMS);
  }

  // ---- a block that cancels all leases ----

  const LEASE: Id := [13]
  const LEASE_TX := Transaction(LEASE, 8, 0, Lease)

  /** The lease balances of the lessor and the lessee, and whether the lease is active. */
  const LEASE_ITEMS := [LeaseOf(ISSUER), LeaseOf(PAYEE), Keyed(LeaseStatus(LEASE))]

  function Lent(incoming: int, outgoing: int): Portfolio { Portfolio(0, LeaseBalance(incoming, outgoing), map[]) }

  function LeaseDelta(): Delta {
    Delta(EMPTY_DIFF.(
      transactions := map[LEASE := (LEASE_TX, {ISSUER, PAYEE})],
      portfolios := map[ISSUER := Lent(0, 50), PAYEE := Lent(50, 0)],
      leaseState := map[LEASE := true]), 0)
  }

  /** The patch at the height at which effective balances are reset; the block has no transactions. */
  function PatchDelta(): Delta {
    Delta(EMPTY_DIFF.(
      portfolios := map[ISSUER := Lent(0, -50), PAYEE := Lent(-50, 0), GENERATOR := Coins(0)],
      leaseState := map[LEASE := false]), 0)
  }

  const LEASED := [Some(Leases(LeaseBalance(0, 50))), Some(Leases(LeaseBalance(50, 0))), Some(Active(true))]
  const CANCELLED := [Some(Leases(NO_LEASES)), Some(Leases(NO_LEASES)), Some(Active(false))]

  lemma Leasing()
    ensures FoldAll([GENESIS_DELTA] + [LeaseDelta()], LEASE_ITEMS) == LEASED
    ensures var diff := LeaseDelta().diff; diff.transactions.Keys == {LEASE} && diff.scripts == map[] && diff.accountData == map[]
    ensures LeaseDelta() == Delta(LeaseDelta().diff, 0) && LEASE_TX.id == LEASE
  {
    hide Fold;
    assert [] + [GENESIS_DELTA] == [GENESIS_DELTA];
    forall i: nat | i < 3 ensures FoldAll([GENESIS_DELTA] + [LeaseDelta()], LEASE_ITEMS)[i] == LEASED[i] {
      FoldNone(LEASE_ITEMS, i);
      FoldMore([], GENESIS_DELTA, LEASE_ITEMS, i);
      FoldMore([GENESIS_DELTA], LeaseDelta(), LEASE_ITEMS, i);
    }
  }

  lemma Patching(deltas: seq<Delta>)
    requires FoldAll(deltas, LEASE_ITEMS) == LEASED
    ensures FoldAll(deltas + [PatchDelta()], LEASE_ITEMS) == CANCELLED
    ensures forall i :: 0 <= i < 3 ==> Touches(PatchDelta().diff, LEASE_ITEMS[i]) && !ItemUndone(PatchDelta().diff, [], LEASE_ITEMS[i])
    ensures var diff := PatchDelta().diff; diff.transactions.Keys == {} && diff.scripts == map[] && diff.accountData == map[]
    ensures PatchDelta() == Delta(PatchDelta().diff, 0)
  {
    hide Fold;
    forall i: nat | i < 3 ensures FoldAll(deltas + [PatchDelta()], LEASE_ITEMS)[i] == CANCELLED[i] {
      FoldMore(deltas, PatchDelta(), LEASE_ITEMS, i);
    }
  }

  lemma NoIds()
    ensures TransactionIds([]) == {} && DistinctIds([])
  {
  }

  /** Block 3 cancels all leases without a transaction. Rolling back to block 2 restores none of the lease. */
  method LeasePatchThenRollback() returns (leased: seq<Option<Value>>, cancelled: seq<Option<Value>>, after: seq<Option<Value>>)
    ensures leased == LEASED && cancelled == CANCELLED
    ensures after == CANCELLED
  {
    hide Based, Meant, HeightsCoherent, Coherence.Coherent, LoadCurrent, After, Acceptable, AtHeights, HeightsLeft, RolledBack,
      AppliedWhereReady, Coherence.Ready, FoldAll, Fold, Read,
      Surviving, DiffsCoveredAbove, BlockIds, AllTransactionIds, ShortIds, LatestItem, TransactionIds, DistinctIds, LeaseDelta, PatchDelta, Touches, ItemUndone;
    var store := Open(100, GENESIS_DELTA.diff, GENESIS_TX);
    OneId(LEASE_TX);
    Leasing();
    Grow(store, LeaseDelta().diff, [LEASE_TX]);
    ReadIsFold(store.db, store.chain, store.deltas, LEASE_ITEMS);
    leased := Read(store.db, LEASE_ITEMS);
    ghost var deltas := store.deltas;
    NoIds();
    Patching(deltas);
    Grow(store, PatchDelta().diff, []);
    ReadIsFold(store.db, store.chain, store.deltas, LEASE_ITEMS);
    cancelled := Read(store.db, LEASE_ITEMS);
    ghost var chain := store.chain;
    GoBack(store, 2);
    ReadBack(store.db, chain, deltas, PatchDelta(), LEASE_ITEMS);
    after := Read(store.db, LEASE_ITEMS);
  }
}
