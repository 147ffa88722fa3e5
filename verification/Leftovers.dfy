/**
 What a rollback leaves of the values in any store that blocks can be taken off, whatever earlier rollbacks left there: a history
 loses exactly the heights above the target at which the rollback reaches its key, and all else stays.
 */
module Leftovers {
  import opened Common
  import opened Types
  import opened Histories
  import opened Versions
  import opened Enumerations
  import opened Tables
  import opened Batches
  import opened ChainBlocks
  import opened ChainNode
  import opened ChainRuns
  import opened Survivors
  import opened Diffs

  /** Rolling back to the target discards the key at a height. This can be read off the store before. */
  predicate Discards(db: Tables, key: VersionKey, target: nat, i: nat) {
    target < i <= db.blocks.height && key in RollbackKeys(db, i)
  }

  /** The part of a history that is left. */
  function Remaining(db: Tables, key: VersionKey, target: nat, history: seq<nat>): (r: seq<nat>)
    ensures forall i :: i in r <==> i in history && !Discards(db, key, target, i)
  {
    if history == [] then [] else
    (if Discards(db, key, target, history[0]) then [] else [history[0]]) + Remaining(db, key, target, history[1..])
  }

  /** The value under the newest height that is left. */
  function ValueLeft(db: Tables, key: VersionKey, target: nat): Option<Value> {
    var left := Remaining(db, key, target, HistoryOf(db.state.history, key));
    if left == [] then None else Lookup(db.state.value, (key, left[0]))
  }

  function ItemLeft(db: Tables, item: Item, target: nat): Option<Value> {
    match KeyOf(db.addresses.addressId, item)
    case None => None
    case Some(key) => ValueLeft(db, key, target)
  }

  // ---- one block ----

  lemma StepLeaves(db: Tables, height: nat, key: VersionKey)
    requires height in db.blocks.stored.header && height > 0
    ensures var after := RollbackTables(db, height).state;
            && HistoryOf(after.history, key) == (if key in RollbackKeys(db, height) then Without(HistoryOf(db.state.history, key), height)
                                                 else HistoryOf(db.state.history, key))
            && forall i: nat :: Lookup(after.value, (key, i)) ==
                 if key in RollbackKeys(db, height) && i == height then None else Lookup(db.state.value, (key, i))
  {
    hide CommitBlocks, CommitAddressTxs, Commit, RollbackKeys, Without, HistoryDiscards, ValueDiscards, Lookup;
    DiscardedTables(db.state.history, db.state.value, RollbackKeys(db, height), height, key);
  }

  lemma NumbersStay(t: BlockTables, height: nat, i: nat)
    requires height in t.header && i != height
    ensures TransactionsAt(Remove(t, height), i) == TransactionsAt(t, i)
  {
    hide Commit, RemovedNumbers, Ascending;
    var after := Remove(t, height);
    forall n: nat ensures Lookup(after.transactionAt, (i, n)) == Lookup(t.transactionAt, (i, n)) {
      CommitAt(t.transactionAt, RemovedTransactions(t, height), (i, n));
    }
    assert forall n: nat :: (i, n) in after.transactionAt <==> Lookup(after.transactionAt, (i, n)).Some?;
    assert forall n: nat :: (i, n) in t.transactionAt <==> Lookup(t.transactionAt, (i, n)).Some?;
    assert NumbersAt(after, i) == NumbersAt(t, i);
    var nums := Ascending(NumbersAt(t, i));
    forall k | 0 <= k < |nums| ensures TransactionsAt(after, i)[k] == TransactionsAt(t, i)[k] {
      assert nums[k] in nums;
      assert Lookup(after.transactionAt, (i, nums[k])) == Lookup(t.transactionAt, (i, nums[k]));
    }
  }

  /** What the rollback of a lower block reaches stays the same. */
  lemma KeysStay(db: Tables, height: nat, i: nat)
    requires height in db.blocks.stored.header && 0 < height && i != height
    ensures RollbackKeys(RollbackTables(db, height), i) == RollbackKeys(db, i)
  {
    hide Commit, TransactionsAt, CommitBlocks, CommitAddressTxs, HistoryDiscards, ValueDiscards, UndoneByTransactions, UndoneForAddresses;
    NumbersStay(db.blocks.stored, height, i);
    SameUndone(db.state, RollbackTables(db, height).state, i);
  }

  lemma SameUndone(s: State, after: State, height: nat)
    requires after.changedAddresses == s.changedAddresses && after.assetList == s.assetList && after.changedDataKeys == s.changedDataKeys
    ensures UndoneForAddresses(after, height, ChangedAddresses(after, height)) == UndoneForAddresses(s, height, ChangedAddresses(s, height))
  {
    hide UndoneForAddress;
  }

  lemma DiscardsStay(db: Tables, height: nat, key: VersionKey, target: nat, i: nat)
    requires height in db.blocks.stored.header && height == db.blocks.height > target
    ensures Discards(db, key, target, i) <==> Discards(RollbackTables(db, height), key, target, i) || (i == height && key in RollbackKeys(db, height))
  {
    hide RollbackKeys, CommitBlocks, CommitAddressTxs, CommitState;
    if i != height {
      KeysStay(db, height, i);
    }
  }

  lemma {:induction false} RemainingStep(db: Tables, height: nat, key: VersionKey, target: nat, history: seq<nat>)
    requires height in db.blocks.stored.header && height == db.blocks.height > target
    ensures Remaining(db, key, target, history) ==
            Remaining(RollbackTables(db, height), key, target, if key in RollbackKeys(db, height) then Without(history, height) else history)
  {
    hide RollbackTables, RollbackKeys, Discards;
    if history != [] {
      RemainingStep(db, height, key, target, history[1..]);
      DiscardsStay(db, height, key, target, history[0]);
      var next, x, rest := RollbackTables(db, height), history[0], history[1..];
      if key in RollbackKeys(db, height) {
        var left := Without(rest, height);
        assert Without(history, height) == if x == height then left else [x] + left;
        assert ([x] + left)[1..] == left;
        RemainingAlike(next, key, target, x, left);
      }
    }
  }

  lemma RemainingAlike(db: Tables, key: VersionKey, target: nat, x: nat, rest: seq<nat>)
    ensures Remaining(db, key, target, [x] + rest) == (if Discards(db, key, target, x) then [] else [x]) + Remaining(db, key, target, rest)
  {
    assert ([x] + rest)[1..] == rest;
  }

  // ---- any depth ----

  /** A rollback to a target leaves of each history and its values exactly what is not discarded. */
  lemma {:induction false} RollbackLeaves(db: Tables, chain: Chain, key: VersionKey, target: nat)
    requires Anchored(db, chain) && db.blocks.safeRollbackHeight < target <= chain.Height()
    ensures var after := RolledBack(db, target).state;
            && HistoryOf(after.history, key) == Remaining(db, key, target, HistoryOf(db.state.history, key))
            && forall i: nat :: Lookup(after.value, (key, i)) == if Discards(db, key, target, i) then None else Lookup(db.state.value, (key, i))
    decreases chain.Height()
  {
    hide Anchored, RollbackTables, RolledBack, RollbackKeys, Discards, Remaining, Lookup;
    AnchoredHeight(db, chain);
    OneTurn(db, target);
    if chain.Height() > target {
      var height := chain.Height();
      RollbackKeepsAnchor(db, chain);
      var next := RollbackTables(db, height);
      RollbackLeaves(next, chain.below, key, target);
      StepLeaves(db, height, key);
      RemainingStep(db, height, key, target, HistoryOf(db.state.history, key));
      forall i: nat ensures Discards(db, key, target, i) <==> Discards(next, key, target, i) || (i == height && key in RollbackKeys(db, height)) {
        DiscardsStay(db, height, key, target, i);
      }
    } else {
      NothingDiscarded(db, key, target, HistoryOf(db.state.history, key));
    }
  }

  lemma {:induction false} NothingDiscarded(db: Tables, key: VersionKey, target: nat, history: seq<nat>)
    requires db.blocks.height <= target
    ensures Remaining(db, key, target, history) == history && forall i: nat :: !Discards(db, key, target, i)
  {
    if history != [] {
      NothingDiscarded(db, key, target, history[1..]);
    }
  }

  /** So every item reads the value under the newest height that is left. */
  lemma RollbackReadsLeft(db: Tables, chain: Chain, item: Item, target: nat)
    requires Anchored(db, chain) && db.blocks.safeRollbackHeight < target <= chain.Height()
    ensures LatestItem(RolledBack(db, target), item) == ItemLeft(db, item, target)
  {
    hide Anchored, RolledBack, KeyOf, Discards, Remaining;
    RollbackToTarget(db, chain, target);
    match KeyOf(db.addresses.addressId, item)
    case None =>
    case Some(key) =>
      RollbackLeaves(db, chain, key, target);
      var left := Remaining(db, key, target, HistoryOf(db.state.history, key));
      if left != [] {
        assert left[0] in left;
      }
  }
}
