/** The caches of values at single heights, behind balance snapshots. They outlive pruning and follow rollbacks. */
module HeightCaches {
  import opened Common
  import opened Types
  import opened Histories
  import opened Versions
  import opened Tables
  import opened Batches
  import opened ChainBlocks
  import opened ChainState
  import opened ChainNode
  import opened ChainRuns
  import opened Snapshots
  import opened RollingBack
  import opened Diffs
  import opened Coherence
  import ChainIndexes
  import ChainAddressTxs

  /** Values are cached for heights at which the key changed, and for height 1, which stands in for no change at all. */
  ghost predicate Placed(chain: Chain, key: VersionKey, height: nat) {
    1 <= height <= chain.Height() && (height == 1 || ChangedAt(Deltas(chain), key, height))
  }

  /** The store still has the value, or there never was one. */
  ghost predicate Live(s: State, chain: Chain, key: VersionKey, height: nat) {
    height in HistoryOf(s.history, key) || !ChangedAt(Deltas(chain), key, height)
  }

  /** What the unpruned chain has for the key at a height. */
  ghost function ChangeAt(chain: Chain, key: VersionKey, height: nat): Option<Value> {
    if ChangedAt(Deltas(chain), key, height) then Deltas(chain)[height - 1][key] else None
  }

  /**
   Every cached value is the unpruned chain's at its height, whatever the store has pruned since, or else it is the default
   that was read at height 1 after the store had pruned it there.
   */
  ghost predicate AmountCached(s: State, chain: Chain, id: nat, height: nat, cached: int) {
    && Placed(chain, EarthsBalance(id), height)
    && (|| cached == AmountOf(ChangeAt(chain, EarthsBalance(id), height))
        || (height == 1 && cached == 0 && !Live(s, chain, EarthsBalance(id), 1)))
  }

  ghost predicate LeasesCached(s: State, chain: Chain, id: nat, height: nat, cached: LeaseBalance) {
    && Placed(chain, LeaseBalanceOf(id), height)
    && (|| cached == LeasesOf(ChangeAt(chain, LeaseBalanceOf(id), height))
        || (height == 1 && cached == NO_LEASES && !Live(s, chain, LeaseBalanceOf(id), 1)))
  }

  ghost predicate HeightsCoherent(c: CacheTables, s: State, chain: Chain) {
    && (forall p: (nat, nat) :: p in c.balanceAt ==> AmountCached(s, chain, p.1, p.0, c.balanceAt[p]))
    && (forall p: (nat, nat) :: p in c.leaseAt ==> LeasesCached(s, chain, p.1, p.0, c.leaseAt[p]))
  }

  lemma NothingCached(c: CacheTables, db: Tables, chain: Chain)
    requires c == CacheTables(map[], map[], map[], map[], map[], map[], map[], map[], map[])
    ensures Coherent(c, db) && HeightsCoherent(c, db.state, chain)
  {
  }

  lemma EvictionKeepsHeights(kept: CacheTables, c: CacheTables, s: State, chain: Chain)
    requires Evicted(kept, c) && HeightsCoherent(c, s, chain)
    ensures HeightsCoherent(kept, s, chain)
  {
    hide AmountCached, LeasesCached;
  }

  lemma KeptValue(db: Tables, chain: Chain, key: VersionKey, height: nat)
    requires Stored(db, chain) && 1 <= height
    ensures height in HistoryOf(db.state.history, key) ==> ChangedAt(Deltas(chain), key, height)
    ensures Lookup(db.state.value, (key, height)) ==
            if height in HistoryOf(db.state.history, key) then Deltas(chain)[height - 1][key] else None
  {
    hide BlocksStored, AddressesStored, ChainAddressTxs.ListsStored, Recorded, ChainIndexes.Indexed, IdsKnown, LastChange, Descending;
    assert Keeps(HistoryOf(db.state.history, key), db.state.value, Deltas(chain), key, Floor(key, db.blocks.safeRollbackHeight));
  }

  lemma HistoryShrinks(histories: HistoryTable, changes: Changes, height: nat, maxRollbackDepth: nat, key: VersionKey, x: nat)
    requires Descending(HistoryOf(histories, key)) && x < height
    ensures x in HistoryOf(histories + HistoryWrites(histories, changes, height, maxRollbackDepth), key) ==> x in HistoryOf(histories, key)
  {
    hide Descending;
    if key in changes {
      UpdatedMembers(HistoryOf(histories, key), height, Threshold(key, height, maxRollbackDepth), x);
    }
  }

  lemma HistoryAfter(db: Tables, chain: Chain, u: Update, maxRollbackDepth: nat, key: VersionKey, height: nat)
    requires Stored(db, chain) && Acceptable(db, u) && height <= chain.Height()
    ensures height in HistoryOf(After(db, u, maxRollbackDepth).state.history, key) ==> height in HistoryOf(db.state.history, key)
  {
    hide Stored, Acceptable, After, HistoryWrites, ChangesOf, Descending;
    AfterFields(db, u, maxRollbackDepth);
    HeightOfStore(db, chain);
    HistoryDescends(db, chain, key);
    HistoryShrinks(db.state.history, ChangesOf(db.state, u), db.blocks.height + 1, maxRollbackDepth, key, height);
  }

  /** What was cached stays cached right when a block is appended. */
  lemma CachedAfterAppend(db: Tables, chain: Chain, u: Update, maxRollbackDepth: nat, key: VersionKey, height: nat)
    requires Stored(db, chain) && Acceptable(db, u) && Placed(chain, key, height)
    ensures var after, longer := After(db, u, maxRollbackDepth), Grown(chain, u, ChangesOf(db.state, u));
            && Placed(longer, key, height) && ChangeAt(longer, key, height) == ChangeAt(chain, key, height)
            && (!Live(db.state, chain, key, height) ==> !Live(after.state, longer, key, height))
  {
    hide Stored, Acceptable, After, ChangesOf, HistoryOf;
    HistoryAfter(db, chain, u, maxRollbackDepth, key, height);
  }

  lemma AppendKeepsHeights(c: CacheTables, db: Tables, chain: Chain, u: Update, maxRollbackDepth: nat)
    requires HeightsCoherent(c, db.state, chain) && Stored(db, chain) && Acceptable(db, u)
    ensures HeightsCoherent(c, After(db, u, maxRollbackDepth).state, Grown(chain, u, ChangesOf(db.state, u)))
  {
    hide Stored, Acceptable, After, ChangesOf, Live, Placed, ChangeAt;
    forall p: (nat, nat) | p in c.balanceAt
      ensures AmountCached(After(db, u, maxRollbackDepth).state, Grown(chain, u, ChangesOf(db.state, u)), p.1, p.0, c.balanceAt[p])
    {
      CachedAfterAppend(db, chain, u, maxRollbackDepth, EarthsBalance(p.1), p.0);
    }
    forall p: (nat, nat) | p in c.leaseAt
      ensures LeasesCached(After(db, u, maxRollbackDepth).state, Grown(chain, u, ChangesOf(db.state, u)), p.1, p.0, c.leaseAt[p])
    {
      CachedAfterAppend(db, chain, u, maxRollbackDepth, LeaseBalanceOf(p.1), p.0);
    }
  }

  lemma RolledBackHistory(db: Tables, height: nat, key: VersionKey, x: nat)
    requires height in db.blocks.stored.header && height > 0
    ensures x in HistoryOf(RollbackTables(db, height).state.history, key) ==> x in HistoryOf(db.state.history, key)
  {
    hide RollbackKeys, CommitBlocks, CommitAddressTxs, Commit, ValueDiscards;
    DiscardedTables(db.state.history, db.state.value, RollbackKeys(db, height), height, key);
  }

  /** What was cached of lower heights stays right when the last block is taken off, covered or not. */
  lemma CachedAfterRollback(db: Tables, chain: Chain, key: VersionKey, height: nat)
    requires chain.Height() > 1 && chain.Height() in db.blocks.stored.header && Placed(chain, key, height)
    ensures Placed(chain.below, key, height) <==> height < chain.Height()
    ensures height < chain.Height() ==>
              && ChangeAt(chain.below, key, height) == ChangeAt(chain, key, height)
              && (!Live(db.state, chain, key, height) ==> !Live(RollbackTables(db, chain.Height()).state, chain.below, key, height))
  {
    hide RollbackTables, HistoryOf;
    RolledBackHistory(db, chain.Height(), key, height);
  }

  /** Whoever has a native balance cached for the last block is recorded as changed by it. */
  lemma NativeIsRecorded(db: Tables, chain: Chain, id: nat)
    requires chain.Height() > 1 && Recorded(db.state, chain) && Placed(chain, EarthsBalance(id), chain.Height())
    ensures id in ChangedAddresses(db.state, chain.Height())
  {
    hide ChangedKeys, IsChanged;
    ChangedKeysAre(chain.update, EarthsBalance(id));
    assert RecordedBlock(db.state, chain.Height(), chain.update);
    NativeChangeRecorded(chain.update, id);
  }

  lemma NativeChangeRecorded(u: Update, id: nat)
    requires IsChanged(u, EarthsBalance(id))
    ensures id in RecordedAddresses(u)
  {
  }

  /** Every address with a lease balance cached for the height is recorded as changed there. */
  ghost predicate LeasesDropped(c: CacheTables, s: State, height: nat) {
    forall id: nat :: (height, id) in c.leaseAt ==> id in ChangedAddresses(s, height)
  }

  lemma NotDropped(c: CacheTables, db: Tables, height: nat, p: (nat, nat))
    requires ChangedAreKnown(db, height)
    ensures var c' := CachesAfterRollback(c, StaleAfter(db, height), height);
            var dropped := p.0 == height && p.1 in ChangedAddresses(db.state, height);
            && (p in c'.balanceAt <==> !dropped && p in c.balanceAt)
            && (p in c'.leaseAt <==> !dropped && p in c.leaseAt)
            && (p in c'.balanceAt ==> c'.balanceAt[p] == c.balanceAt[p])
            && (p in c'.leaseAt ==> c'.leaseAt[p] == c.leaseAt[p])
  {
    hide BalancesToInvalidate, PortfoliosToInvalidate, OrdersIn, ScriptsIn, AssetScriptsIn, TransactionsAt;
  }

  /**
   Taking the last block off keeps them right exactly if every lease balance cached for its height is of an address recorded
   as changed there.
   */
  lemma RollbackKeepsHeights(c: CacheTables, db: Tables, chain: Chain)
    requires HeightsCoherent(c, db.state, chain) && Recorded(db.state, chain)
    requires chain.Height() > 1 && chain.Height() in db.blocks.stored.header && ChangedAreKnown(db, chain.Height())
    ensures HeightsCoherent(CachesAfterRollback(c, StaleAfter(db, chain.Height()), chain.Height()), RollbackTables(db, chain.Height()).state, chain.below)
            <==> LeasesDropped(c, db.state, chain.Height())
  {
    hide Recorded, Live, Placed, ChangeAt, RollbackTables, CachesAfterRollback, StaleAfter, ChangedAreKnown, ChangedAddresses;
    var height := chain.Height();
    var c', after := CachesAfterRollback(c, StaleAfter(db, height), height), RollbackTables(db, height);
    forall p: (nat, nat) | p in c'.balanceAt ensures AmountCached(after.state, chain.below, p.1, p.0, c'.balanceAt[p]) {
      NotDropped(c, db, height, p);
      assert AmountCached(db.state, chain, p.1, p.0, c.balanceAt[p]);
      BalanceKept(db, chain, p);
      CachedAfterRollback(db, chain, EarthsBalance(p.1), p.0);
    }
    forall p: (nat, nat) | p in c'.leaseAt
      ensures p.0 <= height && (LeasesCached(after.state, chain.below, p.1, p.0, c'.leaseAt[p]) <==> p.0 < height)
      ensures LeasesDropped(c, db.state, height) ==> p.0 != height
    {
      NotDropped(c, db, height, p);
      assert LeasesCached(db.state, chain, p.1, p.0, c.leaseAt[p]);
      CachedAfterRollback(db, chain, LeaseBalanceOf(p.1), p.0);
      PlacedInChain(chain, LeaseBalanceOf(p.1), p.0);
      assert p == (p.0, p.1);
    }
    if !LeasesDropped(c, db.state, height) {
      var id: nat :| (height, id) in c.leaseAt && id !in ChangedAddresses(db.state, height);
      NotDropped(c, db, height, (height, id));
      assert !LeasesCached(after.state, chain.below, id, height, c'.leaseAt[(height, id)]);
    }
  }

  lemma PlacedInChain(chain: Chain, key: VersionKey, height: nat)
    requires Placed(chain, key, height)
    ensures height <= chain.Height()
  {
  }

  lemma BalanceKept(db: Tables, chain: Chain, p: (nat, nat))
    requires chain.Height() > 1 && Recorded(db.state, chain) && Placed(chain, EarthsBalance(p.1), p.0)
    requires !(p.0 == chain.Height() && p.1 in ChangedAddresses(db.state, chain.Height()))
    ensures p.0 < chain.Height()
  {
    hide Recorded, Placed, ChangedAddresses;
    PlacedInChain(chain, EarthsBalance(p.1), p.0);
    if p.0 == chain.Height() {
      NativeIsRecorded(db, chain, p.1);
    }
  }

  /** Covered blocks are such blocks. */
  lemma CoveredDropsLeases(c: CacheTables, db: Tables, chain: Chain)
    requires HeightsCoherent(c, db.state, chain) && Recorded(db.state, chain) && chain.Height() > 1
    requires Covered(chain.update, db.addresses.addressId)
    ensures LeasesDropped(c, db.state, chain.Height())
  {
    hide ChangeAt, Live, ChangedKeys, IsChanged, ChangedAddresses, RecordedAddresses;
    forall id: nat | (chain.Height(), id) in c.leaseAt ensures id in ChangedAddresses(db.state, chain.Height()) {
      assert LeasesCached(db.state, chain, id, chain.Height(), c.leaseAt[(chain.Height(), id)]);
      ChangedKeysAre(chain.update, LeaseBalanceOf(id));
      assert IsUndone(chain.update, db.addresses.addressId, LeaseBalanceOf(id));
      assert RecordedBlock(db.state, chain.Height(), chain.update);
    }
  }

  // ---- what rollbacks leave cached ----

  /** The caches of values at single heights. */
  function AtHeights(c: CacheTables): (map<(nat, nat), int>, map<(nat, nat), LeaseBalance>) {
    (c.balanceAt, c.leaseAt)
  }

  /** An entry goes with the block at its height if its address is recorded as changed there. */
  predicate EntryGoes(db: Tables, target: nat, p: (nat, nat)) {
    target < p.0 <= db.blocks.height && p.1 in ChangedAddresses(db.state, p.0)
  }

  function EntriesLeft<V>(entries: map<(nat, nat), V>, db: Tables, target: nat): map<(nat, nat), V> {
    map p | p in entries && !EntryGoes(db, target, p) :: entries[p]
  }

  function HeightsLeft(c: CacheTables, db: Tables, target: nat): (map<(nat, nat), int>, map<(nat, nat), LeaseBalance>) {
    (EntriesLeft(c.balanceAt, db, target), EntriesLeft(c.leaseAt, db, target))
  }

  lemma NothingGoes<V(!new)>(entries: map<(nat, nat), V>, db: Tables, target: nat)
    requires db.blocks.height <= target
    ensures EntriesLeft(entries, db, target) == entries
  {
  }

  lemma GoneInSteps<V(!new)>(entries: map<(nat, nat), V>, left: map<(nat, nat), V>, db: Tables, next: Tables, target: nat)
    requires db.blocks.height > target && next.blocks.height == db.blocks.height - 1 && next.state.changedAddresses == db.state.changedAddresses
    requires forall p: (nat, nat) :: Lookup(left, p) ==
               if p.0 == db.blocks.height && p.1 in ChangedAddresses(db.state, p.0) then None else Lookup(entries, p)
    ensures EntriesLeft(left, next, target) == EntriesLeft(entries, db, target)
  {
    forall p: (nat, nat) ensures Lookup(EntriesLeft(left, next, target), p) == Lookup(EntriesLeft(entries, db, target), p) {
      assert Lookup(left, p) == if p.0 == db.blocks.height && p.1 in ChangedAddresses(db.state, p.0) then None else Lookup(entries, p);
    }
    SameTable(EntriesLeft(left, next, target), EntriesLeft(entries, db, target));
  }

  lemma RolledFields(db: Tables, height: nat)
    requires height in db.blocks.stored.header && height > 0
    ensures RollbackTables(db, height).blocks.height == height - 1
    ensures RollbackTables(db, height).state.changedAddresses == db.state.changedAddresses
  {
    hide RollbackKeys, CommitBlocks, CommitAddressTxs, HistoryDiscards, ValueDiscards, Commit;
  }

  lemma EntriesAfterRollback(c: CacheTables, db: Tables, target: nat)
    requires db.blocks.height > target && db.blocks.height in db.blocks.stored.header && ChangedAreKnown(db, db.blocks.height)
    ensures HeightsLeft(CachesAfterRollback(c, StaleAfter(db, db.blocks.height), db.blocks.height), RollbackTables(db, db.blocks.height), target)
            == HeightsLeft(c, db, target)
  {
    hide CachesAfterRollback, StaleAfter, ChangedAreKnown, RollbackTables, ChangedAddresses, EntriesLeft;
    var height, next := db.blocks.height, RollbackTables(db, db.blocks.height);
    var c' := CachesAfterRollback(c, StaleAfter(db, height), height);
    RolledFields(db, height);
    forall p: (nat, nat)
      ensures Lookup(c'.balanceAt, p) == if p.0 == height && p.1 in ChangedAddresses(db.state, p.0) then None else Lookup(c.balanceAt, p)
      ensures Lookup(c'.leaseAt, p) == if p.0 == height && p.1 in ChangedAddresses(db.state, p.0) then None else Lookup(c.leaseAt, p)
    {
      NotDropped(c, db, height, p);
    }
    GoneInSteps(c.balanceAt, c'.balanceAt, db, next, target);
    GoneInSteps(c.leaseAt, c'.leaseAt, db, next, target);
  }

  // ---- the heights a snapshot asks for ----

  /** Every height of a slice may be cached; other than 1 it still has its value, and 1 too unless the slice starts below the floor. */
  lemma SliceIsLive(db: Tables, chain: Chain, key: VersionKey, from: nat, to: nat, x: nat)
    requires Stored(db, chain) && chain.Height() >= 1
    requires x in Slice(HistoryOf(db.state.history, key), from, to)
    ensures Placed(chain, key, x)
    ensures x != 1 ==> Live(db.state, chain, key, x)
    ensures Floor(key, db.blocks.safeRollbackHeight) <= from <= to && to <= chain.Height() ==> Live(db.state, chain, key, x)
  {
    hide BlocksStored, AddressesStored, ChainAddressTxs.ListsStored, Recorded, ChainIndexes.Indexed, IdsKnown, LastChange;
    var history := HistoryOf(db.state.history, key);
    assert Keeps(history, db.state.value, Deltas(chain), key, Floor(key, db.blocks.safeRollbackHeight));
    HistoryDescends(db, chain, key);
    DropAboveIsNotAbove(history, to);
    if x !in history {
      assert x == 1 && NotAbove(NotAbove(history, to), from) == [];
      if from <= to <= chain.Height() {
        var last := LastChange(Deltas(chain), key, if from == 0 then 1 else from);
      }
    } else {
      KeptValue(db, chain, key, x);
    }
  }

  // ---- what a request gets through the caches ----

  function BalanceThrough(c: CacheTables, s: State, id: nat, height: nat): int {
    if (height, id) in c.balanceAt then c.balanceAt[(height, id)] else AmountOf(Lookup(s.value, (EarthsBalance(id), height)))
  }

  function LeasesThrough(c: CacheTables, s: State, id: nat, height: nat): LeaseBalance {
    if (height, id) in c.leaseAt then c.leaseAt[(height, id)] else LeasesOf(Lookup(s.value, (LeaseBalanceOf(id), height)))
  }

  function SnapshotThrough(c: CacheTables, s: State, id: nat, p: (nat, nat)): BalanceSnapshot {
    var leases := LeasesThrough(c, s, id, p.1);
    BalanceSnapshot(if p.0 > p.1 then p.0 else p.1, BalanceThrough(c, s, id, p.0), leases.incoming, leases.outgoing)
  }

  /** The snapshots of the pairs, read through the caches. */
  ghost predicate ReadThrough(c: CacheTables, s: State, id: nat, pairs: seq<(nat, nat)>, r: seq<BalanceSnapshot>) {
    |r| == |pairs| && forall i :: 0 <= i < |r| ==> r[i] == SnapshotThrough(c, s, id, pairs[i])
  }

  ghost predicate AnswerAlike(a: CacheTables, b: CacheTables, s: State) {
    forall id: nat, height: nat ::
      BalanceThrough(a, s, id, height) == BalanceThrough(b, s, id, height) && LeasesThrough(a, s, id, height) == LeasesThrough(b, s, id, height)
  }

  ghost predicate AllCached(c: CacheTables, id: nat, pairs: seq<(nat, nat)>) {
    forall p :: p in pairs ==> (p.0, id) in c.balanceAt && (p.1, id) in c.leaseAt
  }

  lemma NothingRead(c: CacheTables, s: State, id: nat)
    ensures ReadThrough(c, s, id, [], []) && AnswerAlike(c, c, s) && AllCached(c, id, [])
  {
  }

  lemma SameLeases(c: CacheTables, s: State, id: nat, height: nat, at: nat, cached: int)
    ensures LeasesThrough(c.(balanceAt := c.balanceAt[(at, id) := cached]), s, id, height) == LeasesThrough(c, s, id, height)
  {
  }

  /** Reading one more pair caches what it finds, and no answer changes. */
  lemma OneMoreRead(first: CacheTables, c: CacheTables, after: CacheTables, s: State, id: nat, pairs: seq<(nat, nat)>, i: nat, r: seq<BalanceSnapshot>)
    requires i < |pairs| && ReadThrough(first, s, id, pairs[..i], r) && AnswerAlike(c, first, s) && AllCached(c, id, pairs[..i])
    requires var p := pairs[i];
             after == c.(balanceAt := c.balanceAt[(p.0, id) := BalanceThrough(c, s, id, p.0)],
                         leaseAt := c.leaseAt[(p.1, id) := LeasesThrough(c, s, id, p.1)])
    ensures ReadThrough(first, s, id, pairs[..i + 1], r + [SnapshotThrough(c, s, id, pairs[i])])
    ensures AnswerAlike(after, first, s) && AllCached(after, id, pairs[..i + 1])
  {
    hide AmountOf, LeasesOf;
    assert pairs[..i + 1] == pairs[..i] + [pairs[i]];
    forall id': nat, height: nat
      ensures BalanceThrough(after, s, id', height) == BalanceThrough(c, s, id', height)
      ensures LeasesThrough(after, s, id', height) == LeasesThrough(c, s, id', height)
    {
    }
  }

  /** The key was changed in block 1, the store has pruned that since, and another value than the default is cached for it. */
  ghost predicate BalanceOutlived(c: CacheTables, s: State, chain: Chain, id: nat) {
    !Live(s, chain, EarthsBalance(id), 1) && Lookup(c.balanceAt, (1, id)).GetOr(0) != 0
  }

  ghost predicate LeasesOutlived(c: CacheTables, s: State, chain: Chain, id: nat) {
    !Live(s, chain, LeaseBalanceOf(id), 1) && Lookup(c.leaseAt, (1, id)).GetOr(NO_LEASES) != NO_LEASES
  }

  /** One of the two slices of a request falls back to such a height 1. */
  ghost predicate Outlived(c: CacheTables, s: State, chain: Chain, id: nat, from: nat, to: nat) {
    || (1 in Slice(HistoryOf(s.history, EarthsBalance(id)), from, to) && BalanceOutlived(c, s, chain, id))
    || (1 in Slice(HistoryOf(s.history, LeaseBalanceOf(id)), from, to) && LeasesOutlived(c, s, chain, id))
  }

  /** What outlived the store is the unpruned chain's value. */
  lemma OutlivedIsTheChains(c: CacheTables, s: State, chain: Chain, id: nat)
    requires HeightsCoherent(c, s, chain)
    ensures BalanceOutlived(c, s, chain, id) ==> c.balanceAt[(1, id)] == AmountOf(ChangeAt(chain, EarthsBalance(id), 1))
    ensures LeasesOutlived(c, s, chain, id) ==> c.leaseAt[(1, id)] == LeasesOf(ChangeAt(chain, LeaseBalanceOf(id), 1))
  {
    hide Placed, Live, ChangeAt;
    assert (1, id) in c.balanceAt ==> AmountCached(s, chain, id, 1, c.balanceAt[(1, id)]);
    assert (1, id) in c.leaseAt ==> LeasesCached(s, chain, id, 1, c.leaseAt[(1, id)]);
  }

  /** From the floor of the balances on nothing is outlived. */
  lemma NothingOutlived(c: CacheTables, db: Tables, chain: Chain, id: nat, from: nat, to: nat)
    requires Stored(db, chain) && chain.Height() >= 1
    requires db.blocks.safeRollbackHeight - 1000 <= from <= to <= chain.Height()
    ensures !Outlived(c, db.state, chain, id, from, to)
  {
    hide Stored, Slice, Live;
    forall key | (key == EarthsBalance(id) || key == LeaseBalanceOf(id)) && 1 in Slice(HistoryOf(db.state.history, key), from, to)
      ensures Live(db.state, chain, key, 1)
    {
      SliceIsLive(db, chain, key, from, to, 1);
    }
  }

  /** A height a slice asks for is answered through the cache as by the store, unless it is a pruned height 1. */
  lemma ThroughExact(c: CacheTables, db: Tables, chain: Chain, id: nat, from: nat, to: nat, x: nat)
    requires HeightsCoherent(c, db.state, chain) && Stored(db, chain) && chain.Height() >= 1
    ensures var key := EarthsBalance(id);
            x in Slice(HistoryOf(db.state.history, key), from, to) ==>
              (BalanceThrough(c, db.state, id, x) == AmountOf(Lookup(db.state.value, (key, x))) <==>
               !(x == 1 && BalanceOutlived(c, db.state, chain, id)))
    ensures var key := LeaseBalanceOf(id);
            x in Slice(HistoryOf(db.state.history, key), from, to) ==>
              (LeasesThrough(c, db.state, id, x) == LeasesOf(Lookup(db.state.value, (key, x))) <==>
               !(x == 1 && LeasesOutlived(c, db.state, chain, id)))
  {
    hide Stored, Slice;
    if x in Slice(HistoryOf(db.state.history, EarthsBalance(id)), from, to) {
      SliceIsLive(db, chain, EarthsBalance(id), from, to, x);
      KeptValue(db, chain, EarthsBalance(id), x);
      assert (x, id) in c.balanceAt ==> AmountCached(db.state, chain, id, x, c.balanceAt[(x, id)]);
    }
    if x in Slice(HistoryOf(db.state.history, LeaseBalanceOf(id)), from, to) {
      SliceIsLive(db, chain, LeaseBalanceOf(id), from, to, x);
      KeptValue(db, chain, LeaseBalanceOf(id), x);
      assert (x, id) in c.leaseAt ==> LeasesCached(db.state, chain, id, x, c.leaseAt[(x, id)]);
    }
  }

  lemma {:induction false} MergedHeights(w: seq<nat>, l: seq<nat>, p: (nat, nat))
    requires w != [] && l != [] && p in Merge(w, l)
    ensures p.0 in w && p.1 in l
    decreases |w| + |l|
  {
    var wt, lt := w[1..], l[1..];
    if p != (w[0], l[0]) {
      if wt == [] { MergedHeights(w, lt, p); }
      else if lt == [] { MergedHeights(wt, l, p); }
      else if w[0] == l[0] { MergedHeights(wt, lt, p); }
      else if w[0] > l[0] { MergedHeights(wt, l, p); }
      else { MergedHeights(w, lt, p); }
    }
  }

  /** Merging uses every height of both lists. */
  lemma {:induction false} MergeUses(w: seq<nat>, l: seq<nat>, x: nat) returns (p: (nat, nat), q: (nat, nat))
    requires w != [] && l != []
    ensures x in w ==> p in Merge(w, l) && p.0 == x
    ensures x in l ==> q in Merge(w, l) && q.1 == x
    decreases |w| + |l|
  {
    var wt, lt := w[1..], l[1..];
    p, q := (w[0], l[0]), (w[0], l[0]);
    if wt != [] || lt != [] {
      var w' := if wt == [] then w else if lt == [] || w[0] >= l[0] then wt else w;
      var l' := if lt == [] then l else if wt == [] || w[0] <= l[0] then lt else l;
      assert Merge(w, l) == [(w[0], l[0])] + Merge(w', l');
      var p', q' := MergeUses(w', l', x);
      if x != w[0] { p := p'; }
      if x != l[0] { q := q'; }
    }
  }

  /** Read through the caches, the snapshots are the store's exactly if nothing they ask for is outlived. */
  lemma SnapshotsThroughExact(c: CacheTables, db: Tables, chain: Chain, id: nat, from: nat, to: nat, r: seq<BalanceSnapshot>)
    requires HeightsCoherent(c, db.state, chain) && Stored(db, chain) && chain.Height() >= 1
    requires ReadThrough(c, db.state, id, BalancePairs(db.state, id, from, to), r)
    ensures r == SnapshotsOf(db.state, id, BalancePairs(db.state, id, from, to)) <==> !Outlived(c, db.state, chain, id, from, to)
  {
    hide Stored, HeightsCoherent, Slice, Merge, BalanceOutlived, LeasesOutlived, BalanceThrough, LeasesThrough;
    var w, l := Slice(HistoryOf(db.state.history, EarthsBalance(id)), from, to), Slice(HistoryOf(db.state.history, LeaseBalanceOf(id)), from, to);
    var pairs := BalancePairs(db.state, id, from, to);
    SlicesNotEmpty(db.state, id, from, to);
    forall x: nat
      ensures x in w ==> (BalanceThrough(c, db.state, id, x) == AmountOf(Lookup(db.state.value, (EarthsBalance(id), x))) <==>
                          !(x == 1 && BalanceOutlived(c, db.state, chain, id)))
      ensures x in l ==> (LeasesThrough(c, db.state, id, x) == LeasesOf(Lookup(db.state.value, (LeaseBalanceOf(id), x))) <==>
                          !(x == 1 && LeasesOutlived(c, db.state, chain, id)))
    {
      ThroughExact(c, db, chain, id, from, to, x);
    }
    if Outlived(c, db.state, chain, id, from, to) {
      var p, q := MergeUses(w, l, 1);
      var used := if 1 in w && BalanceOutlived(c, db.state, chain, id) then p else q;
      var i :| 0 <= i < |pairs| && pairs[i] == used;
      assert r[i] != SnapshotOf(db.state, id, pairs[i]);
    } else {
      forall i | 0 <= i < |pairs| ensures r[i] == SnapshotOf(db.state, id, pairs[i]) {
        MergedHeights(w, l, pairs[i]);
      }
    }
  }

  lemma SlicesNotEmpty(s: State, id: nat, from: nat, to: nat)
    ensures Slice(HistoryOf(s.history, EarthsBalance(id)), from, to) != []
    ensures Slice(HistoryOf(s.history, LeaseBalanceOf(id)), from, to) != []
  {
  }
}
