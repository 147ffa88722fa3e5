/**
 What holds of a single item over any appends and rollbacks, covered or not. An item is exact while its value is the fold of the
 differences; an append keeps it exact, and a rollback does exactly if every discarded block that touched the item has it undone.
 */
module Exactness {
  import opened Common
  import opened Types
  import opened Histories
  import opened Versions
  import opened Tables
  import opened Batches
  import opened ChainBlocks
  import opened ChainState
  import opened ChainNode
  import opened ChainRuns
  import opened Survivors
  import opened Diffs
  import opened Coherence
  import opened DiffCoverage
  import ChainAddressTxs
  import ChainIndexes

  /** What the blocks of the chain made of a key is what their deltas make of the item. */
  ghost predicate RealizedFor(chain: Chain, deltas: seq<Delta>, key: VersionKey, item: Item) {
    && |deltas| == chain.Height()
    && (chain.Grown? ==>
          && Effect(deltas[|deltas| - 1], item, ValueAt(Deltas(chain.below), key, chain.below.Height()))
             == (if key in chain.changes then Some(chain.changes[key]) else None)
          && RealizedFor(chain.below, deltas[..|deltas| - 1], key, item))
  }

  ghost predicate Exact(db: Tables, chain: Chain, deltas: seq<Delta>, item: Item) {
    match KeyOf(db.addresses.addressId, item)
    case None => true
    case Some(key) => KeyKept(db, chain, key) && RealizedFor(chain, deltas, key, item)
  }

  // ---- exact items read the fold ----

  lemma {:induction false} RealizedFold(chain: Chain, deltas: seq<Delta>, key: VersionKey, item: Item)
    requires RealizedFor(chain, deltas, key, item)
    ensures Fold(deltas, item) == ValueAt(Deltas(chain), key, chain.Height())
  {
    hide Effect;
    if chain.Grown? {
      RealizedFold(chain.below, deltas[..|deltas| - 1], key, item);
      LastDelta(chain, key);
    }
  }

  lemma {:induction false} UntouchedFold(chain: Chain, deltas: seq<Delta>, ids: map<Address, nat>, item: Item)
    requires MatchesDeltas(chain, deltas, ids) && KeyOf(ids, item) == None
    ensures Fold(deltas, item) == None
  {
    hide Effect, KeyOf, Matched, RecordsDelta, Touches;
    if chain.Grown? {
      UntouchedFold(chain.below, deltas[..|deltas| - 1], ids, item);
      MatchedItem(chain.changes, deltas[|deltas| - 1].diff, ids, item);
      TouchesWhatever(deltas[|deltas| - 1], item, Fold(deltas[..|deltas| - 1], item));
    }
  }

  lemma {:induction false} UntouchedSurvivesNowhere(chain: Chain, deltas: seq<Delta>, ids: map<Address, nat>, item: Item, target: nat)
    requires MatchesDeltas(chain, deltas, ids) && KeyOf(ids, item) == None && target <= chain.Height()
    ensures Surviving(chain, deltas, item, target) == target
  {
    hide KeyOf, Matched, RecordsDelta, Touches, ItemUndone;
    if chain.Height() > target {
      UntouchedSurvivesNowhere(chain.below, deltas[..|deltas| - 1], ids, item, target);
      MatchedItem(chain.changes, deltas[|deltas| - 1].diff, ids, item);
    }
  }

  /** An exact item holds what the deltas make of it. */
  lemma ExactIsFold(db: Tables, chain: Chain, deltas: seq<Delta>, item: Item)
    requires Anchored(db, chain) && MatchesDeltas(chain, deltas, db.addresses.addressId)
    requires Exact(db, chain, deltas, item)
    ensures LatestItem(db, item) == Fold(deltas, item)
  {
    hide Anchored, KeyOf, KeyKept, LatestValue, ValueAt, Fold, Surviving, RealizedFor, MatchesDeltas;
    match KeyOf(db.addresses.addressId, item)
    case None => UntouchedFold(chain, deltas, db.addresses.addressId, item);
    case Some(key) =>
      KeptLatest(db, chain, key);
      RealizedFold(chain, deltas, key, item);
  }

  lemma {:induction false} RealizedForItem(chain: Chain, deltas: seq<Delta>, ids: map<Address, nat>, key: VersionKey, item: Item)
    requires FromDeltas(chain, deltas, ids) && KeyOf(ids, item) == Some(key)
    ensures RealizedFor(chain, deltas, key, item)
  {
    hide Effect, KeyOf, ValueAt;
    if chain.Grown? {
      RealizedForItem(chain.below, deltas[..|deltas| - 1], ids, key, item);
    }
  }

  /** In a store that holds the chain, whose blocks did what the deltas say, every item is exact. */
  lemma AllExact(db: Tables, chain: Chain, deltas: seq<Delta>, item: Item)
    requires Stored(db, chain) && FromDeltas(chain, deltas, db.addresses.addressId)
    ensures Exact(db, chain, deltas, item)
  {
    hide Stored, Anchored, KeyOf, KeyKept, RealizedFor, FromDeltas;
    StoredKeys(db, chain);
    match KeyOf(db.addresses.addressId, item)
    case None =>
    case Some(key) => RealizedForItem(chain, deltas, db.addresses.addressId, key, item);
  }

  lemma ExactIsReady(db: Tables, chain: Chain, deltas: seq<Delta>, diff: Diff, maxRollbackDepth: nat, item: Item)
    requires Anchored(db, chain) && Exact(db, chain, deltas, item)
    ensures ItemReady(db, diff, maxRollbackDepth, item)
  {
    hide Anchored, KeyOf, KeyKept, RealizedFor, KeyReady, Touches, Removes;
    match KeyOf(db.addresses.addressId, item)
    case None =>
    case Some(key) => KeptIsReady(db, chain, key, Removes(diff, item), maxRollbackDepth);
  }

  // ---- append ----

  lemma KeyKeptAfterAppend(db: Tables, chain: Chain, u: Update, maxRollbackDepth: nat, key: VersionKey)
    requires Anchored(db, chain) && Acceptable(db, u) && KeyKept(db, chain, key)
    ensures KeyKept(After(db, u, maxRollbackDepth), Grown(chain, u, ChangesOf(db.state, u)), key)
  {
    hide Anchored, FreshTransactions, NewIds, SpeaksOfKnown, ChainAddressTxs.Listed, Keeps, AppendBlocks, AppendAddresses, CommitState, AppendStateBatch,
      CommitAddressTxs, AppendAddressTxBatch, AppendIndexes, ChangesOf, ChangedKeys, HistoryWrites, ValueWrites, Commit, DistinctIds;
    AnchoredHeight(db, chain);
    SafeHeightAfter(db.blocks, u.block, db.blocks.height + 1, maxRollbackDepth);
    StateBatchFields(db.state, u, db.blocks.height + 1, maxRollbackDepth, After(db, u, maxRollbackDepth).state);
    AppendKeepsKey(db.state.history, db.state.value, Deltas(chain), db.blocks.safeRollbackHeight, ChangesOf(db.state, u), maxRollbackDepth,
                   After(db, u, maxRollbackDepth).blocks.safeRollbackHeight, key);
  }

  lemma {:induction false} NeverChanged(chain: Chain, deltas: seq<Delta>, ids: map<Address, nat>, key: VersionKey, item: Item)
    requires MatchesDeltas(chain, deltas, ids) && AboutAddress(key) && !Known(ids, key.addressId) && KeyOf(ids, item) == None
    ensures forall i :: 0 <= i < chain.Height() ==> key !in Deltas(chain)[i]
    ensures RealizedFor(chain, deltas, key, item)
  {
    hide Effect, KeyOf, RecordsDelta, Known, Touches, ValueAt;
    if chain.Grown? {
      NeverChanged(chain.below, deltas[..|deltas| - 1], ids, key, item);
      MatchedItem(chain.changes, deltas[|deltas| - 1].diff, ids, item);
      TouchesWhatever(deltas[|deltas| - 1], item, ValueAt(Deltas(chain.below), key, chain.below.Height()));
    }
  }

  /** The key of an address that is not known yet is faithful to the chain: nobody ever changed it. */
  lemma UnknownIsKept(db: Tables, chain: Chain, deltas: seq<Delta>, key: VersionKey, item: Item)
    requires Anchored(db, chain) && MatchesDeltas(chain, deltas, db.addresses.addressId)
    requires AboutAddress(key) && key.addressId !in db.addresses.idToAddress && KeyOf(db.addresses.addressId, item) == None
    ensures KeyKept(db, chain, key) && RealizedFor(chain, deltas, key, item)
  {
    hide MatchesDeltas, RealizedFor, LastChange, BlocksStored, ChainAddressTxs.ListsStored, Recorded, ChainIndexes.Indexed, IdsKnown, KeyOf;
    forall a | a in db.addresses.addressId ensures db.addresses.addressId[a] != key.addressId {
      assert Lookup(db.addresses.idToAddress, db.addresses.addressId[a]) == Some(a);
    }
    NeverChanged(chain, deltas, db.addresses.addressId, key, item);
    hide AddressesStored;
    UnknownHasNothing(db, chain, key.addressId, key);
  }

  lemma RealizedMore(chain: Chain, deltas: seq<Delta>, s: State, u: Update, ids: map<Address, nat>, delta: Delta, key: VersionKey, item: Item)
    requires RealizedFor(chain, deltas, key, item) && Realizes(s, ids, delta, u) && KeyOf(ids, item) == Some(key)
    requires LatestValue(s, key) == ValueAt(Deltas(chain), key, chain.Height())
    ensures RealizedFor(Grown(chain, u, ChangesOf(s, u)), deltas + [delta], key, item)
  {
    hide Effect, KeyOf, ValueAt, LatestValue, IsChanged, ChangedKeys;
    ChangedKeysAre(u, key);
    assert (deltas + [delta])[..|deltas|] == deltas;
  }

  /** An append keeps an exact item exact, whatever other items hold. */
  lemma AppendKeepsExact(db: Tables, chain: Chain, deltas: seq<Delta>, u: Update, maxRollbackDepth: nat, delta: Delta, item: Item)
    requires Anchored(db, chain) && MatchesDeltas(chain, deltas, db.addresses.addressId) && Acceptable(db, u)
    requires Realizes(db.state, db.addresses.addressId + u.newAddresses, delta, u)
    requires Exact(db, chain, deltas, item)
    ensures Exact(After(db, u, maxRollbackDepth), Grown(chain, u, ChangesOf(db.state, u)), deltas + [delta], item)
  {
    hide Anchored, MatchesDeltas, Acceptable, After, Realizes, KeyKept, RealizedFor, ChangesOf, ChangedKeys, LatestValue, ValueAt;
    var ids := db.addresses.addressId + u.newAddresses;
    AddressesAfter(db, chain, u, maxRollbackDepth, if item.Keyed? then [] else item.address);
    match KeyOf(ids, item)
    case None =>
    case Some(key) =>
      if KeyOf(db.addresses.addressId, item) != Some(key) {
        UnknownIsKept(db, chain, deltas, key, item);
      }
      KeptLatest(db, chain, key);
      KeyKeptAfterAppend(db, chain, u, maxRollbackDepth, key);
      RealizedMore(chain, deltas, db.state, u, ids, delta, key, item);
  }

  // ---- rollback ----

  lemma {:induction false} RealizedUpto(chain: Chain, deltas: seq<Delta>, key: VersionKey, item: Item, height: nat)
    requires RealizedFor(chain, deltas, key, item) && height <= chain.Height()
    ensures RealizedFor(chain.Upto(height), deltas[..height], key, item)
  {
    hide Effect, ValueAt;
    if height < chain.Height() {
      RealizedUpto(chain.below, deltas[..|deltas| - 1], key, item, height);
      assert deltas[..|deltas| - 1][..height] == deltas[..height];
    } else {
      assert deltas[..height] == deltas;
    }
  }

  /** After a rollback of any blocks an item that was exact is the fold of the differences it survives from. */
  lemma ItemAfterRollback(db: Tables, chain: Chain, deltas: seq<Delta>, item: Item, target: nat)
    requires Anchored(db, chain) && Injective(db.addresses.addressId) && MatchesDeltas(chain, deltas, db.addresses.addressId)
    requires Exact(db, chain, deltas, item) && db.blocks.safeRollbackHeight < target <= chain.Height()
    ensures |deltas| == chain.Height()
    ensures LatestItem(RolledBack(db, target), item) == Fold(deltas[..Surviving(chain, deltas, item, target)], item)
  {
    hide Anchored, Matched, RecordsDelta, Injective, RolledBack, Surviving, KeyOf, KeyKept, LatestValue, ValueAt, Fold, Recorded, RealizedFor;
    var ids, after, top := db.addresses.addressId, RolledBack(db, target), Surviving(chain, deltas, item, target);
    RollbackToTarget(db, chain, target);
    AnchoredIsRecorded(db, chain);
    match KeyOf(ids, item)
    case None =>
      UntouchedSurvivesNowhere(chain, deltas, ids, item, target);
      MatchesUpto(chain, deltas, ids, target);
      UntouchedFold(chain.Upto(target), deltas[..target], ids, item);
    case Some(key) =>
      SurvivingIsSurvivor(db.state, chain, deltas, ids, item, key, target);
      RollbackReads(db, chain, key, target);
      ValueOfUpto(chain, key, top);
      RealizedUpto(chain, deltas, key, item, top);
      RealizedFold(chain.Upto(top), deltas[..top], key, item);
  }

  /** It stays exact if and only if every discarded block that touched it has it undone. */
  lemma ExactAfterRollback(db: Tables, chain: Chain, deltas: seq<Delta>, item: Item, target: nat)
    requires Anchored(db, chain) && Injective(db.addresses.addressId) && MatchesDeltas(chain, deltas, db.addresses.addressId)
    requires Exact(db, chain, deltas, item) && db.blocks.safeRollbackHeight < target <= chain.Height()
    ensures |deltas| == chain.Height()
    ensures Exact(RolledBack(db, target), chain.Upto(target), deltas[..target], item) <==> UndoneAbove(chain, deltas, item, target)
    ensures UndoneAbove(chain, deltas, item, target) <==> Surviving(chain, deltas, item, target) == target
  {
    hide Anchored, Matched, RecordsDelta, Injective, RolledBack, Surviving, KeyOf, KeyKept, Recorded, RealizedFor, UndoneAbove;
    var ids := db.addresses.addressId;
    UndoneAboveExactly(chain, deltas, item, target);
    RollbackToTarget(db, chain, target);
    AnchoredIsRecorded(db, chain);
    match KeyOf(ids, item)
    case None => UntouchedSurvivesNowhere(chain, deltas, ids, item, target);
    case Some(key) =>
      SurvivingIsSurvivor(db.state, chain, deltas, ids, item, key, target);
      KeyKeptExactly(db, chain, key, target);
      RealizedUpto(chain, deltas, key, item, target);
  }
}
