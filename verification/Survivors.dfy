/**
 What a rollback of any depth leaves, covered or not: each key reads the value of the last discarded block whose change of it
 no rollback branch reaches, or else its value at the target.
 */
module Survivors {
  import opened Common
  import opened Types
  import opened Histories
  import opened Versions
  import opened Tables
  import opened Batches
  import opened ChainBlocks
  import opened ChainState
  import opened ChainNode
  import opened ChainRuns
  import ChainAddressTxs
  import ChainIndexes

  /** The height from which a key keeps its value when the blocks above the target are rolled back. */
  ghost function Survivor(chain: Chain, key: VersionKey, target: nat, addressId: map<Address, nat>): (r: nat)
    requires target <= chain.Height()
    ensures target <= r <= chain.Height()
  {
    if chain.Height() == target then target
    else if IsChanged(chain.update, key) && !IsUndone(chain.update, addressId, key) then chain.Height()
    else Survivor(chain.below, key, target, addressId)
  }

  /** The change a block made at a height is undone by its rollback. */
  ghost predicate UndoneAt(chain: Chain, key: VersionKey, height: nat, addressId: map<Address, nat>) {
    1 <= height <= chain.Height() && IsUndone(chain.Upto(height).update, addressId, key)
  }

  /** A key after the blocks above `height` were rolled back: its history without the heights at which it is undone. */
  ghost predicate RolledKey(before: State, after: State, chain: Chain, key: VersionKey, height: nat, addressId: map<Address, nat>) {
    && Descending(HistoryOf(after.history, key))
    && (forall i :: i in HistoryOf(after.history, key) <==>
          i in HistoryOf(before.history, key) && (i <= height || !UndoneAt(chain, key, i, addressId)))
    && (forall i: nat :: i in HistoryOf(after.history, key) ==> Lookup(after.value, (key, i)) == Lookup(before.value, (key, i)))
  }

  ghost predicate RolledTo(before: State, after: State, chain: Chain, height: nat, addressId: map<Address, nat>) {
    forall key :: RolledKey(before, after, chain, key, height, addressId)
  }

  /** In the store, a history has the heights at which the chain changed the key; from the floor on it has all of them. */
  lemma HistoryIsChanges(db: Tables, chain: Chain, key: VersionKey, height: nat)
    requires Anchored(db, chain) && KeyKept(db, chain, key) && 1 <= height <= chain.Height()
    ensures height in HistoryOf(db.state.history, key) ==> IsChanged(chain.Upto(height).update, key)
    ensures IsChanged(chain.Upto(height).update, key) && Floor(key, db.blocks.safeRollbackHeight) <= height ==>
              height in HistoryOf(db.state.history, key)
  {
    hide BlocksStored, AddressesStored, ChainAddressTxs.ListsStored, ChainIndexes.Indexed, IdsKnown, RecordedBlock, ChangedKeys, IsChanged;
    ChangesAt(db.state, chain, key, height);
    if ChangedAt(Deltas(chain), key, height) {
      assert LastChange(Deltas(chain), key, height) == height;
    }
  }

  lemma {:induction false} ChangesAt(s: State, chain: Chain, key: VersionKey, height: nat)
    requires Recorded(s, chain) && 1 <= height <= chain.Height()
    ensures ChangedAt(Deltas(chain), key, height) <==> IsChanged(chain.Upto(height).update, key)
  {
    hide RecordedBlock, ChangedKeys, IsChanged;
    ChangedKeysAre(chain.Upto(height).update, key);
    if height < chain.Height() {
      ChangesAt(s, chain.below, key, height);
    }
  }

  lemma RolledOneKey(db: Tables, chain: Chain, key: VersionKey)
    requires Anchored(db, chain) && chain.Height() > 1 && db.blocks.safeRollbackHeight < chain.Height()
    requires Descending(HistoryOf(db.state.history, key))
    ensures chain.Height() in db.blocks.stored.header
    ensures var after, h := RollbackTables(db, chain.Height()).state, chain.Height();
            var gone := key in RollbackKeys(db, h);
            && Descending(HistoryOf(after.history, key))
            && (forall i :: i in HistoryOf(after.history, key) <==> i in HistoryOf(db.state.history, key) && !(gone && i == h))
            && (forall i: nat :: i in HistoryOf(after.history, key) ==> Lookup(after.value, (key, i)) == Lookup(db.state.value, (key, i)))
  {
    hide Anchored, CommitBlocks, CommitAddressTxs, Commit, RollbackKeys, Without, HistoryDiscards, ValueDiscards, Descending, Lookup;
    RollbackKeepsAnchor(db, chain);
    DiscardedTables(db.state.history, db.state.value, RollbackKeys(db, chain.Height()), chain.Height(), key);
    WithoutDescending(HistoryOf(db.state.history, key), chain.Height());
  }

  lemma TopReached(db: Tables, chain: Chain, key: VersionKey)
    requires Anchored(db, chain) && chain.Height() > 1 && db.blocks.safeRollbackHeight < chain.Height()
    requires IsChanged(chain.update, key)
    ensures key in RollbackKeys(db, chain.Height()) <==> IsUndone(chain.update, db.addresses.addressId, key)
  {
    hide BlocksStored, AddressesStored, ChainAddressTxs.ListsStored, Recorded, ChainIndexes.Indexed, IdsKnown, RollbackKeys, IsChanged, IsUndone;
    RollbackKeepsAnchor(db, chain);
    RollbackReaches(db, chain, key);
  }

  /** One more block off: a key it changed loses its height if it is undone. */
  lemma RolledOneMore(db0: Tables, chain0: Chain, db: Tables, chain: Chain, key: VersionKey)
    requires Anchored(db0, chain0) && KeyKept(db0, chain0, key) && Anchored(db, chain)
    requires 1 < chain.Height() <= chain0.Height() && chain == chain0.Upto(chain.Height())
    requires db.addresses == db0.addresses && db.blocks.safeRollbackHeight < chain.Height()
    requires RolledKey(db0.state, db.state, chain0, key, chain.Height(), db0.addresses.addressId)
    ensures chain.Height() in db.blocks.stored.header
    ensures RolledKey(db0.state, RollbackTables(db, chain.Height()).state, chain0, key, chain.Height() - 1, db0.addresses.addressId)
  {
    hide KeyKept, Anchored, RollbackTables, RollbackKeys, IsUndone, IsChanged, Descending, Lookup;
    RolledOneKey(db, chain, key);
    HistoryIsChanges(db0, chain0, key, chain.Height());
    if IsChanged(chain.update, key) {
      TopReached(db, chain, key);
    }
  }

  lemma {:induction false} SurvivorIsLast(chain: Chain, key: VersionKey, target: nat, addressId: map<Address, nat>, i: nat)
    requires target < i <= chain.Height()
    requires IsChanged(chain.Upto(i).update, key) && !IsUndone(chain.Upto(i).update, addressId, key)
    ensures i <= Survivor(chain, key, target, addressId)
  {
    hide IsChanged, IsUndone;
    if i < chain.Height() {
      SurvivorIsLast(chain.below, key, target, addressId, i);
    }
  }

  lemma {:induction false} SurvivorSurvives(chain: Chain, key: VersionKey, target: nat, addressId: map<Address, nat>)
    requires target <= chain.Height()
    ensures var i := Survivor(chain, key, target, addressId);
            i > target ==> IsChanged(chain.Upto(i).update, key) && !IsUndone(chain.Upto(i).update, addressId, key)
  {
    hide IsChanged, IsUndone;
    if target < chain.Height() && Survivor(chain, key, target, addressId) != chain.Height() {
      SurvivorSurvives(chain.below, key, target, addressId);
    }
  }

  /** So after the rollback the key reads the chain's value at its surviving height. */
  lemma RolledReads(db0: Tables, chain0: Chain, after: State, key: VersionKey, target: nat)
    requires Anchored(db0, chain0) && KeyKept(db0, chain0, key) && db0.blocks.safeRollbackHeight < target <= chain0.Height()
    requires RolledKey(db0.state, after, chain0, key, target, db0.addresses.addressId)
    ensures LatestValue(after, key) ==
            ValueAt(Deltas(chain0), key, Survivor(chain0, key, target, db0.addresses.addressId))
  {
    hide Anchored, IsChanged, IsUndone, LastChange, ValueAt, Keeps;
    var ids := db0.addresses.addressId;
    var history, rest, top := HistoryOf(db0.state.history, key), HistoryOf(after.history, key), Survivor(chain0, key, target, ids);
    SurvivorSurvives(chain0, key, target, ids);
    KeptDescends(db0, chain0, key);
    ReadOfKept(db0.state.history, db0.state.value, Deltas(chain0), key, Floor(key, db0.blocks.safeRollbackHeight), top);
    forall i | i in rest ensures i in history && 1 <= i <= top {
      if i > target {
        HistoryIsChanges(db0, chain0, key, i);
        SurvivorIsLast(chain0, key, target, ids, i);
      }
    }
    if top > target {
      HistoryIsChanges(db0, chain0, key, top);
    }
    RestInForce(history, rest, target, top);
  }

  /** What is left of a history starts with the entry that was in force at the surviving height. */
  lemma RestInForce(history: seq<nat>, rest: seq<nat>, target: nat, top: nat)
    requires Descending(history) && Descending(rest)
    requires forall i :: i in rest ==> i in history && i <= top
    requires forall i :: i in history && i <= target ==> i in rest
    requires target <= top && (top > target ==> top in rest)
    ensures InForce(history, top) == HeadOption(rest)
  {
    if rest == [] {
      var first := InForce(history, top);
      if first.Some? {
        InForceIsLargest(history, top, first.value);
        assert false;
      }
    } else {
      assert rest[0] in rest;
      forall y | y in history && y <= top ensures y <= rest[0] {
        if top == target || y <= target { assert y in rest; }
      }
      InForceIsLargest(history, top, rest[0]);
    }
  }

  // ---- rollbacks of any depth ----

  lemma OneTurn(db: Tables, target: nat)
    ensures db.blocks.height <= target ==> RolledBack(db, target) == db
    ensures db.blocks.height > target && db.blocks.height in db.blocks.stored.header ==>
              var next := RollbackTables(db, db.blocks.height);
              && RolledBack(db, target) == RolledBack(next, target)
              && next.addresses == db.addresses && next.blocks.safeRollbackHeight == db.blocks.safeRollbackHeight
  {
    hide RollbackKeys, CommitState, CommitAddressTxs, CommitBlocks;
  }

  lemma {:induction false} RolledAll(db0: Tables, chain0: Chain, db: Tables, height: nat, target: nat, key: VersionKey)
    requires Anchored(db0, chain0) && KeyKept(db0, chain0, key) && db0.blocks.safeRollbackHeight < target <= height <= chain0.Height()
    requires Anchored(db, chain0.Upto(height))
    requires db.addresses == db0.addresses && db.blocks.safeRollbackHeight == db0.blocks.safeRollbackHeight
    requires RolledKey(db0.state, db.state, chain0, key, height, db0.addresses.addressId)
    ensures RolledKey(db0.state, RolledBack(db, target).state, chain0, key, target, db0.addresses.addressId)
    decreases height
  {
    hide KeyKept, Anchored, RolledKey, RolledBack, RollbackTables;
    var chain := chain0.Upto(height);
    AnchoredHeight(db, chain);
    OneTurn(db, target);
    if height > target {
      RolledOneMore(db0, chain0, db, chain, key);
      RollbackKeepsAnchor(db, chain);
      UptoBelow(chain0, height);
      RolledAll(db0, chain0, RollbackTables(db, height), height - 1, target, key);
    }
  }

  lemma KeyRolled(db: Tables, chain: Chain, target: nat, key: VersionKey)
    requires Anchored(db, chain) && KeyKept(db, chain, key) && db.blocks.safeRollbackHeight < target <= chain.Height()
    ensures RolledKey(db.state, RolledBack(db, target).state, chain, key, target, db.addresses.addressId)
  {
    hide Anchored, RolledBack, IsUndone, KeyKept, Descending;
    KeptDescends(db, chain, key);
    assert RolledKey(db.state, db.state, chain, key, chain.Height(), db.addresses.addressId);
    hide RolledKey;
    RolledAll(db, chain, db, chain.Height(), target, key);
  }

  /** After a rollback each history has lost exactly the heights at which its key is undone. */
  lemma EveryKeyRolled(db: Tables, chain: Chain, target: nat)
    requires Stored(db, chain) && db.blocks.safeRollbackHeight < target <= chain.Height()
    ensures RolledTo(db.state, RolledBack(db, target).state, chain, target, db.addresses.addressId)
  {
    hide Stored, Anchored, RolledKey, RolledBack, KeyKept;
    StoredKeys(db, chain);
    forall key ensures RolledKey(db.state, RolledBack(db, target).state, chain, key, target, db.addresses.addressId) {
      KeyRolled(db, chain, target, key);
    }
  }

  /** A key that was faithful to the chain then reads the chain's value at the height it survives from. */
  lemma RollbackReads(db: Tables, chain: Chain, key: VersionKey, target: nat)
    requires Anchored(db, chain) && KeyKept(db, chain, key) && db.blocks.safeRollbackHeight < target <= chain.Height()
    ensures LatestValue(RolledBack(db, target).state, key) ==
            ValueAt(Deltas(chain), key, Survivor(chain, key, target, db.addresses.addressId))
  {
    hide Anchored, KeyKept, LatestValue, Survivor, ValueAt, RolledKey;
    KeyRolled(db, chain, target, key);
    RolledReads(db, chain, RolledBack(db, target).state, key, target);
  }

  // ---- which keys stay faithful ----

  lemma KeyAfterRollback(db: Tables, chain: Chain, key: VersionKey)
    requires Anchored(db, chain) && KeyKept(db, chain, key) && chain.Height() > 1 && db.blocks.safeRollbackHeight < chain.Height()
    ensures chain.Height() in db.blocks.stored.header
    ensures KeyKept(RollbackTables(db, chain.Height()), chain.below, key)
            <==> (IsChanged(chain.update, key) ==> IsUndone(chain.update, db.addresses.addressId, key))
  {
    hide BlocksStored, AddressesStored, ChainAddressTxs.ListsStored, RecordedBlock, ChainIndexes.Indexed, IdsKnown, Keeps, RollbackKeys, IsChanged, IsUndone,
      ChangedKeys, HistoryDiscards, ValueDiscards, Commit, CommitBlocks, CommitAddressTxs, RollbackAddressTxBatch;
    RollbackKeepsAnchor(db, chain);
    AnchoredHeight(db, chain);
    ChangedKeysAre(chain.update, key);
    if IsChanged(chain.update, key) {
      TopReached(db, chain, key);
    }
    assert RollbackBlocks(db.blocks, chain.Height()).safeRollbackHeight == db.blocks.safeRollbackHeight;
    RollbackKeyExact(db.state.history, db.state.value, Deltas(chain), db.blocks.safeRollbackHeight, RollbackKeys(db, chain.Height()), key);
    assert Deltas(chain)[..chain.Height() - 1] == Deltas(chain.below);
  }

  lemma {:induction false} UnsurvivedIsKept(db: Tables, chain: Chain, key: VersionKey, target: nat)
    requires Anchored(db, chain) && KeyKept(db, chain, key) && db.blocks.safeRollbackHeight < target <= chain.Height()
    requires Survivor(chain, key, target, db.addresses.addressId) == target
    ensures KeyKept(RolledBack(db, target), chain.Upto(target), key)
    decreases chain.Height()
  {
    hide Anchored, KeyKept, IsChanged, IsUndone, RolledBack, RollbackTables;
    AnchoredHeight(db, chain);
    OneTurn(db, target);
    if chain.Height() > target {
      KeyAfterRollback(db, chain, key);
      RollbackKeepsAnchor(db, chain);
      UnsurvivedIsKept(RollbackTables(db, chain.Height()), chain.below, key, target);
    }
  }

  /** A key stays faithful to the chain over a rollback of any depth exactly if it survives from nowhere above the target. */
  lemma KeyKeptExactly(db: Tables, chain: Chain, key: VersionKey, target: nat)
    requires Anchored(db, chain) && KeyKept(db, chain, key) && db.blocks.safeRollbackHeight < target <= chain.Height()
    ensures KeyKept(RolledBack(db, target), chain.Upto(target), key) <==> Survivor(chain, key, target, db.addresses.addressId) == target
  {
    hide Anchored, KeyKept, IsChanged, IsUndone, RolledBack;
    var ids := db.addresses.addressId;
    var top := Survivor(chain, key, target, ids);
    if top == target {
      UnsurvivedIsKept(db, chain, key, target);
    } else {
      SurvivorSurvives(chain, key, target, ids);
      HistoryIsChanges(db, chain, key, top);
      KeyRolled(db, chain, target, key);
      if KeyKept(RolledBack(db, target), chain.Upto(target), key) {
        KeptDescends(RolledBack(db, target), chain.Upto(target), key);
        assert false;
      }
    }
  }

  lemma {:induction false} CoveredSurvivesNowhere(chain: Chain, key: VersionKey, target: nat, addressId: map<Address, nat>)
    requires target <= chain.Height() && CoveredAbove(chain, target, addressId)
    ensures Survivor(chain, key, target, addressId) == target
  {
    hide IsChanged, IsUndone;
    if chain.Height() > target {
      CoveredSurvivesNowhere(chain.below, key, target, addressId);
    }
  }

  lemma {:induction false} UncoveredSurvives(chain: Chain, target: nat, addressId: map<Address, nat>) returns (key: VersionKey)
    requires target <= chain.Height() && !CoveredAbove(chain, target, addressId)
    ensures Survivor(chain, key, target, addressId) > target
  {
    hide IsChanged, IsUndone;
    if !Covered(chain.update, addressId) {
      key :| IsChanged(chain.update, key) && !IsUndone(chain.update, addressId, key);
    } else {
      key := UncoveredSurvives(chain.below, target, addressId);
    }
  }

  /** A rollback gives the store of the chain cut at the target exactly if all blocks above it are covered. */
  lemma RollbackExactlyCovered(db: Tables, chain: Chain, target: nat)
    requires Stored(db, chain) && db.blocks.safeRollbackHeight < target <= chain.Height()
    ensures Stored(RolledBack(db, target), chain.Upto(target)) <==> CoveredAbove(chain, target, db.addresses.addressId)
  {
    hide Stored, Anchored, KeyKept, RolledBack, CoveredAbove, Survivor;
    StoredKeys(db, chain);
    StoredKeys(RolledBack(db, target), chain.Upto(target));
    RollbackToTarget(db, chain, target);
    forall key ensures KeyKept(RolledBack(db, target), chain.Upto(target), key) <==>
                       Survivor(chain, key, target, db.addresses.addressId) == target
    {
      KeyKeptExactly(db, chain, key, target);
    }
    if CoveredAbove(chain, target, db.addresses.addressId) {
      forall key ensures KeyKept(RolledBack(db, target), chain.Upto(target), key) {
        CoveredSurvivesNowhere(chain, key, target, db.addresses.addressId);
      }
    } else {
      var key := UncoveredSurvives(chain, target, db.addresses.addressId);
      assert !KeyKept(RolledBack(db, target), chain.Upto(target), key);
    }
  }
}
