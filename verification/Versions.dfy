/**
 Values with height histories, pruned while blocks are appended and filtered while blocks are rolled back.
 The reference is an unpruned chain: the sequence of the changes each block made.
 */
module Versions {
  import opened Common
  import opened Types
  import opened Histories

  /** The changes of one block; None is a history entry without a value (a script that was removed). */
  type Changes = map<VersionKey, Option<Value>>

  type HistoryTable = map<VersionKey, seq<nat>>
  type ValueTable = map<(VersionKey, nat), Value>

  ghost predicate ChangedAt(chain: seq<Changes>, key: VersionKey, height: nat) {
    1 <= height <= |chain| && key in chain[height - 1]
  }

  /** The last height not above `height` at which the chain changed the key, 0 if there is none. */
  ghost function LastChange(chain: seq<Changes>, key: VersionKey, height: nat): (r: nat)
    requires height <= |chain|
    ensures r <= height
    ensures r > 0 ==> ChangedAt(chain, key, r)
    ensures forall i: nat :: r < i <= height ==> !ChangedAt(chain, key, i)
  {
    if height == 0 || ChangedAt(chain, key, height) then height else LastChange(chain, key, height - 1)
  }

  /** The value of the key after the first `height` blocks. */
  ghost function ValueAt(chain: seq<Changes>, key: VersionKey, height: nat): Option<Value>
    requires height <= |chain|
  {
    var change := LastChange(chain, key, height);
    if change == 0 then None else chain[change - 1][key]
  }

  lemma {:induction false} LastChangePrefix(chain: seq<Changes>, longer: seq<Changes>, key: VersionKey, height: nat)
    requires height <= |chain| && height <= |longer|
    requires forall i: nat :: i <= height ==> (ChangedAt(chain, key, i) <==> ChangedAt(longer, key, i))
    ensures LastChange(chain, key, height) == LastChange(longer, key, height)
  {
    if height > 0 && !ChangedAt(chain, key, height) {
      LastChangePrefix(chain, longer, key, height - 1);
    }
  }

  /** What a key held at a height depends only on the blocks up to it. */
  lemma SamePrefix(chain: seq<Changes>, longer: seq<Changes>, key: VersionKey, height: nat)
    requires height <= |chain| && height <= |longer|
    requires forall i :: 0 <= i < height ==> chain[i] == longer[i]
    ensures LastChange(chain, key, height) == LastChange(longer, key, height)
    ensures ValueAt(chain, key, height) == ValueAt(longer, key, height)
  {
    LastChangePrefix(chain, longer, key, height);
  }

  /** Balances and lease balances are kept 1000 blocks longer than everything else. */
  function ExtraDepth(key: VersionKey): nat {
    if key.EarthsBalance? || key.LeaseBalanceOf? then 1000 else 0
  }

  function Threshold(key: VersionKey, height: nat, maxRollbackDepth: nat): int {
    height - (maxRollbackDepth + ExtraDepth(key))
  }

  /** The lowest height at which the key can still be asked for. */
  function Floor(key: VersionKey, safeRollbackHeight: nat): int {
    safeRollbackHeight - ExtraDepth(key)
  }

  function HistoryOf(histories: HistoryTable, key: VersionKey): seq<nat> {
    if key in histories then histories[key] else []
  }

  /** fromHistory: the value under the newest height of the history. */
  function Latest(histories: HistoryTable, values: ValueTable, key: VersionKey): Option<Value> {
    var history := HistoryOf(histories, key);
    if history == [] then None else Lookup(values, (key, history[0]))
  }

  /** The value in force at a height, as the distributions and snapshots read it. */
  function ReadAt(histories: HistoryTable, values: ValueTable, key: VersionKey, height: int): Option<Value> {
    match InForce(HistoryOf(histories, key), height)
    case None => None
    case Some(change) => Lookup(values, (key, change))
  }

  /** What a key's history and values keep of the chain while heights from `floor` on can still be asked for. */
  ghost predicate Keeps(history: seq<nat>, values: ValueTable, chain: seq<Changes>, key: VersionKey, floor: int) {
    && Descending(history)
    && (forall i :: i in history ==> ChangedAt(chain, key, i))
    && (forall height: nat :: floor <= height <= |chain| && LastChange(chain, key, height) > 0
          ==> LastChange(chain, key, height) in history)
    && (forall i: nat :: Lookup(values, (key, i)) == if i in history then chain[i - 1][key] else None)
  }

  ghost predicate Represents(histories: HistoryTable, values: ValueTable, chain: seq<Changes>, safeRollbackHeight: nat) {
    forall key :: Keeps(HistoryOf(histories, key), values, chain, key, Floor(key, safeRollbackHeight))
  }

  /** Pruning never changes an answer about a key that can still be asked. */
  lemma ReadOfKept(histories: HistoryTable, values: ValueTable, chain: seq<Changes>, key: VersionKey, floor: int, height: nat)
    requires Keeps(HistoryOf(histories, key), values, chain, key, floor)
    requires floor <= height <= |chain|
    ensures var change := LastChange(chain, key, height);
            InForce(HistoryOf(histories, key), height) == if change == 0 then None else Some(change)
    ensures ReadAt(histories, values, key, height) == ValueAt(chain, key, height)
  {
    hide NotAbove, Descending;
    var history := HistoryOf(histories, key);
    var change := LastChange(chain, key, height);
    if change == 0 {
      var first := InForce(history, height);
      if first.Some? {
        InForceIsLargest(history, height, first.value);
        assert false;
      }
    } else {
      InForceIsLargest(history, height, change);
    }
  }

  lemma ReadsMatchChain(histories: HistoryTable, values: ValueTable, chain: seq<Changes>, key: VersionKey, safeRollbackHeight: nat, height: nat)
    requires Represents(histories, values, chain, safeRollbackHeight)
    requires Floor(key, safeRollbackHeight) <= height <= |chain|
    ensures var change := LastChange(chain, key, height);
            InForce(HistoryOf(histories, key), height) == if change == 0 then None else Some(change)
    ensures ReadAt(histories, values, key, height) == ValueAt(chain, key, height)
  {
    hide Keeps, InForce, ReadAt, ValueAt;
    ReadOfKept(histories, values, chain, key, Floor(key, safeRollbackHeight), height);
  }

  lemma LatestOfKept(histories: HistoryTable, values: ValueTable, chain: seq<Changes>, key: VersionKey, floor: int)
    requires Keeps(HistoryOf(histories, key), values, chain, key, floor)
    requires floor <= |chain|
    ensures Latest(histories, values, key) == ValueAt(chain, key, |chain|)
  {
    var history := HistoryOf(histories, key);
    var change := LastChange(chain, key, |chain|);
    if history != [] {
      assert history[0] in history;
      assert ChangedAt(chain, key, history[0]);
      assert change in history;
    }
  }

  lemma LatestMatchesChain(histories: HistoryTable, values: ValueTable, chain: seq<Changes>, key: VersionKey, safeRollbackHeight: nat)
    requires Represents(histories, values, chain, safeRollbackHeight)
    requires Floor(key, safeRollbackHeight) <= |chain|
    ensures Latest(histories, values, key) == ValueAt(chain, key, |chain|)
  {
    LatestOfKept(histories, values, chain, key, Floor(key, safeRollbackHeight));
  }

  // ---- append ----

  function HistoryWrites(histories: HistoryTable, changes: Changes, height: nat, maxRollbackDepth: nat): HistoryTable {
    map key | key in changes :: Updated(HistoryOf(histories, key), height, Threshold(key, height, maxRollbackDepth))
  }

  function ExpiredKeys(histories: HistoryTable, changes: Changes, height: nat, maxRollbackDepth: nat): set<(VersionKey, nat)> {
    set key, i | key in changes && i in Expired(HistoryOf(histories, key), Threshold(key, height, maxRollbackDepth)) :: (key, i)
  }

  function ValuePuts(changes: Changes, height: nat): Writes<(VersionKey, nat), Value> {
    map key | key in changes && changes[key].Some? :: (key, height) := changes[key]
  }

  function Deletes(keys: set<(VersionKey, nat)>): Writes<(VersionKey, nat), Value> {
    map key | key in keys :: None
  }

  /** The deletions of expired values come after all puts of the batch. */
  function ValueWrites(histories: HistoryTable, changes: Changes, height: nat, maxRollbackDepth: nat): Writes<(VersionKey, nat), Value> {
    ValuePuts(changes, height) + Deletes(ExpiredKeys(histories, changes, height, maxRollbackDepth))
  }

  lemma KeepsAfterChange(history: seq<nat>, values: ValueTable, chain: seq<Changes>, key: VersionKey, floor: int,
                         changes: Changes, threshold: int, newFloor: int, newValues: ValueTable)
    requires Keeps(history, values, chain, key, floor)
    requires key in changes && threshold <= newFloor && floor <= newFloor
    requires forall i: nat :: Lookup(newValues, (key, i)) ==
               if i == |chain| + 1 then changes[key] else if i in Expired(history, threshold) then None else Lookup(values, (key, i))
    ensures Keeps(Updated(history, |chain| + 1, threshold), newValues, chain + [changes], key, newFloor)
  {
    var n := |chain| + 1;
    var longer := chain + [changes];
    var updated := Updated(history, n, threshold);
    UpdatedDescending(history, n, threshold);
    forall x ensures x in updated <==> x == n || (x in history && x !in Expired(history, threshold)) {
      UpdatedMembers(history, n, threshold, x);
      ExpiredMembers(history, threshold, x);
    }
    forall height: nat | newFloor <= height <= n && LastChange(longer, key, height) > 0
      ensures LastChange(longer, key, height) in updated
    {
      var change := LastChange(longer, key, height);
      if height < n {
        SamePrefix(chain, longer, key, height);
        ExpiredMembers(history, threshold, change);
        if change in Expired(history, threshold) {
          InForceIsLargest(history, threshold, change);
          assert false;
        }
      }
    }
  }

  lemma KeepsUnchanged(history: seq<nat>, values: ValueTable, chain: seq<Changes>, key: VersionKey, floor: int,
                       changes: Changes, newFloor: int, newValues: ValueTable)
    requires Keeps(history, values, chain, key, floor)
    requires key !in changes && floor <= newFloor && floor <= |chain|
    requires forall i: nat :: Lookup(newValues, (key, i)) == Lookup(values, (key, i))
    ensures Keeps(history, newValues, chain + [changes], key, newFloor)
  {
    var longer := chain + [changes];
    forall height: nat | newFloor <= height <= |longer| && LastChange(longer, key, height) > 0
      ensures LastChange(longer, key, height) in history
    {
      if height <= |chain| {
        SamePrefix(chain, longer, key, height);
      } else {
        SamePrefix(chain, longer, key, |chain|);
        assert !ChangedAt(longer, key, height);
      }
    }
  }

  /** Appending a block, with its pruning, keeps a key faithful to the unpruned chain, whatever other keys hold. */
  lemma AppendKeepsKey(histories: HistoryTable, values: ValueTable, chain: seq<Changes>, safe: nat,
                       changes: Changes, maxRollbackDepth: nat, newSafe: nat, key: VersionKey)
    requires Keeps(HistoryOf(histories, key), values, chain, key, Floor(key, safe))
    requires safe <= |chain|
    requires newSafe >= safe && newSafe >= |chain| + 1 - maxRollbackDepth
    ensures var height := |chain| + 1;
            Keeps(HistoryOf(histories + HistoryWrites(histories, changes, height, maxRollbackDepth), key),
                  Commit(values, ValueWrites(histories, changes, height, maxRollbackDepth)), chain + [changes], key, Floor(key, newSafe))
  {
    var height := |chain| + 1;
    var newValues := Commit(values, ValueWrites(histories, changes, height, maxRollbackDepth));
    var history := HistoryOf(histories, key);
    if key in changes {
      var threshold := Threshold(key, height, maxRollbackDepth);
      forall i: nat ensures Lookup(newValues, (key, i)) ==
        if i == height then changes[key] else if i in Expired(history, threshold) then None else Lookup(values, (key, i))
      {
        WrittenValue(histories, values, changes, height, maxRollbackDepth, key, i);
      }
      KeepsAfterChange(history, values, chain, key, Floor(key, safe), changes, threshold, Floor(key, newSafe), newValues);
    } else {
      forall i: nat ensures Lookup(newValues, (key, i)) == Lookup(values, (key, i)) {
        WrittenValue(histories, values, changes, height, maxRollbackDepth, key, i);
      }
      KeepsUnchanged(history, values, chain, key, Floor(key, safe), changes, Floor(key, newSafe), newValues);
    }
  }

  /** So it keeps the tables faithful to the unpruned chain. */
  lemma AppendRepresents(histories: HistoryTable, values: ValueTable, chain: seq<Changes>, safe: nat,
                         changes: Changes, maxRollbackDepth: nat, newSafe: nat)
    requires Represents(histories, values, chain, safe)
    requires safe <= |chain|
    requires newSafe >= safe && newSafe >= |chain| + 1 - maxRollbackDepth
    ensures var height := |chain| + 1;
            Represents(histories + HistoryWrites(histories, changes, height, maxRollbackDepth),
                       Commit(values, ValueWrites(histories, changes, height, maxRollbackDepth)), chain + [changes], newSafe)
  {
    hide Keeps, HistoryWrites, ValueWrites, Commit;
    var height := |chain| + 1;
    var newHistories := histories + HistoryWrites(histories, changes, height, maxRollbackDepth);
    var newValues := Commit(values, ValueWrites(histories, changes, height, maxRollbackDepth));
    forall key ensures Keeps(HistoryOf(newHistories, key), newValues, chain + [changes], key, Floor(key, newSafe)) {
      assert Keeps(HistoryOf(histories, key), values, chain, key, Floor(key, safe));
      AppendKeepsKey(histories, values, chain, safe, changes, maxRollbackDepth, newSafe, key);
    }
  }

  lemma WrittenValue(histories: HistoryTable, values: ValueTable, changes: Changes, height: nat, maxRollbackDepth: nat, key: VersionKey, i: nat)
    requires forall j :: j in HistoryOf(histories, key) ==> j < height
    ensures var newValues := Commit(values, ValueWrites(histories, changes, height, maxRollbackDepth));
            Lookup(newValues, (key, i)) ==
            if key !in changes then Lookup(values, (key, i))
            else if i in Expired(HistoryOf(histories, key), Threshold(key, height, maxRollbackDepth)) then None
            else if i == height && changes[key].Some? then changes[key]
            else Lookup(values, (key, i))
  {
  }

  /**
   What is kept of a changed key: the new height, every height within the rollback depth, and the last one at or before its
   end. Balances and lease balances of accounts are kept 1000 blocks longer, assets' balances and everything else are not.
   The values of the heights that go are deleted, all others stay.
   */
  lemma PrunedExactly(histories: HistoryTable, values: ValueTable, changes: Changes, height: nat, maxRollbackDepth: nat, key: VersionKey, x: nat)
    requires Descending(HistoryOf(histories, key)) && forall j :: j in HistoryOf(histories, key) ==> j < height
    ensures var before, kept := HistoryOf(histories, key), HistoryOf(histories + HistoryWrites(histories, changes, height, maxRollbackDepth), key);
            var end := height - maxRollbackDepth - match key case EarthsBalance(_) => 1000 case LeaseBalanceOf(_) => 1000 case _ => 0;
            && (x in kept <==> if key in changes then x == height || (x in before && (x > end || forall y :: y in before && y <= end ==> y <= x)) else x in before)
            && (x < height ==> Lookup(Commit(values, ValueWrites(histories, changes, height, maxRollbackDepth)), (key, x)) ==
                               if x in before && x !in kept then None else Lookup(values, (key, x)))
  {
    var before := HistoryOf(histories, key);
    var threshold := Threshold(key, height, maxRollbackDepth);
    UpdatedMembers(before, height, threshold, x);
    ExpiredMembers(before, threshold, x);
    var inForce := InForce(before, threshold);
    if inForce.Some? {
      InForceIsLargest(before, threshold, inForce.value);
    }
    WrittenValue(histories, values, changes, height, maxRollbackDepth, key, x);
  }

  // ---- rollback ----

  function HistoryDiscards(histories: HistoryTable, keys: set<VersionKey>, height: nat): HistoryTable {
    map key | key in keys :: Without(HistoryOf(histories, key), height)
  }

  function ValueDiscards(keys: set<VersionKey>, height: nat): Writes<(VersionKey, nat), Value> {
    map key | key in keys :: (key, height) := None
  }

  lemma RollbackKeepsChanges(history: seq<nat>, chain: seq<Changes>, key: VersionKey, floor: int, newHistory: seq<nat>)
    requires |chain| > 0
    requires forall height: nat :: floor <= height <= |chain| && LastChange(chain, key, height) > 0 ==> LastChange(chain, key, height) in history
    requires forall x :: x in newHistory <==> x in history && x != |chain|
    ensures var shorter := chain[..|chain| - 1];
            forall height: nat :: floor <= height <= |shorter| && LastChange(shorter, key, height) > 0 ==> LastChange(shorter, key, height) in newHistory
  {
    var shorter := chain[..|chain| - 1];
    forall height: nat | floor <= height <= |shorter| && LastChange(shorter, key, height) > 0
      ensures LastChange(shorter, key, height) in newHistory
    {
      SamePrefix(shorter, chain, key, height);
      hide LastChange;
    }
  }

  lemma KeepsAfterRollback(history: seq<nat>, values: ValueTable, chain: seq<Changes>, key: VersionKey, floor: int,
                           newHistory: seq<nat>, newValues: ValueTable)
    requires Keeps(history, values, chain, key, floor) && |chain| > 0
    requires Descending(newHistory)
    requires forall x :: x in newHistory <==> x in history && x != |chain|
    requires forall i: nat :: Lookup(newValues, (key, i)) == if i == |chain| then None else Lookup(values, (key, i))
    ensures Keeps(newHistory, newValues, chain[..|chain| - 1], key, floor)
  {
    hide LastChange, Descending, Lookup;
    RollbackKeepsChanges(history, chain, key, floor, newHistory);
    var shorter := chain[..|chain| - 1];
    forall i | i in newHistory ensures ChangedAt(shorter, key, i) {
      assert ChangedAt(chain, key, i);
    }
    forall i: nat ensures Lookup(newValues, (key, i)) == if i in newHistory then shorter[i - 1][key] else None {
      assert Lookup(values, (key, i)) == if i in history then chain[i - 1][key] else None;
    }
  }

  /** Discarding the given keys at the last height undoes the block for a key exactly if it is among them or was not changed. */
  lemma RollbackKeyExact(histories: HistoryTable, values: ValueTable, chain: seq<Changes>, safe: nat, keys: set<VersionKey>, key: VersionKey)
    requires Keeps(HistoryOf(histories, key), values, chain, key, Floor(key, safe))
    requires safe <= |chain| && |chain| > 0
    ensures Keeps(HistoryOf(histories + HistoryDiscards(histories, keys, |chain|), key), Commit(values, ValueDiscards(keys, |chain|)),
                  chain[..|chain| - 1], key, Floor(key, safe))
            <==> (key in chain[|chain| - 1] ==> key in keys)
  {
    hide Commit, HistoryDiscards, ValueDiscards, Lookup;
    var n := |chain|;
    var history := HistoryOf(histories, key);
    var newHistory := HistoryOf(histories + HistoryDiscards(histories, keys, n), key);
    DiscardedTables(histories, values, keys, n, key);
    if key in chain[n - 1] ==> key in keys {
      WithoutDescending(history, n);
      if key !in keys {
        assert !ChangedAt(chain, key, n);
      }
      KeepsAfterRollback(history, values, chain, key, Floor(key, safe), newHistory, Commit(values, ValueDiscards(keys, n)));
    } else {
      assert ChangedAt(chain, key, n) && LastChange(chain, key, n) == n;
      assert n in newHistory;
      assert !ChangedAt(chain[..n - 1], key, n);
    }
  }

  /**
   Rolling back the last block by discarding the given keys at its height gives back the tables of the chain without
   the block exactly when the block changed no other key.
   */
  lemma RollbackExact(histories: HistoryTable, values: ValueTable, chain: seq<Changes>, safe: nat, keys: set<VersionKey>)
    requires Represents(histories, values, chain, safe)
    requires safe <= |chain| && |chain| > 0
    ensures Represents(histories + HistoryDiscards(histories, keys, |chain|), Commit(values, ValueDiscards(keys, |chain|)),
                       chain[..|chain| - 1], safe)
            <==> chain[|chain| - 1].Keys <= keys
  {
    hide Keeps, HistoryDiscards, ValueDiscards, Commit;
    var n := |chain|;
    var newHistories := histories + HistoryDiscards(histories, keys, n);
    var newValues := Commit(values, ValueDiscards(keys, n));
    forall key ensures Keeps(HistoryOf(newHistories, key), newValues, chain[..n - 1], key, Floor(key, safe))
                       <==> (key in chain[n - 1] ==> key in keys)
    {
      assert Keeps(HistoryOf(histories, key), values, chain, key, Floor(key, safe));
      RollbackKeyExact(histories, values, chain, safe, keys, key);
    }
  }

  lemma DiscardedTables(histories: HistoryTable, values: ValueTable, keys: set<VersionKey>, n: nat, key: VersionKey)
    ensures HistoryOf(histories + HistoryDiscards(histories, keys, n), key)
            == if key in keys then Without(HistoryOf(histories, key), n) else HistoryOf(histories, key)
    ensures forall i: nat :: Lookup(Commit(values, ValueDiscards(keys, n)), (key, i)) ==
              if key in keys && i == n then None else Lookup(values, (key, i))
  {
    forall i: nat ensures Lookup(Commit(values, ValueDiscards(keys, n)), (key, i))
                          == if key in keys && i == n then None else Lookup(values, (key, i))
    {
      CommitAt(values, ValueDiscards(keys, n), (key, i));
    }
  }

  lemma DiscardedReadsBelow(histories: HistoryTable, values: ValueTable, chain: seq<Changes>, safe: nat, keys: set<VersionKey>, key: VersionKey)
    requires Represents(histories, values, chain, safe)
    requires safe < |chain|
    requires key in keys || key !in chain[|chain| - 1]
    ensures var n := |chain|;
            Latest(histories + HistoryDiscards(histories, keys, n), Commit(values, ValueDiscards(keys, n)), key) == ValueAt(chain, key, n - 1)
  {
    hide LastChange, Commit, HistoryDiscards, ValueDiscards, Without, Lookup;
    var n := |chain|;
    var history := HistoryOf(histories, key);
    assert Keeps(history, values, chain, key, Floor(key, safe));
    DiscardedTables(histories, values, keys, n, key);
    WithoutDescending(history, n);
    if key !in keys { assert !ChangedAt(chain, key, n); }
    var newHistories := histories + HistoryDiscards(histories, keys, n);
    var newValues := Commit(values, ValueDiscards(keys, n));
    var newHistory := HistoryOf(newHistories, key);
    hide Descending;
    KeepsAfterRollback(history, values, chain, key, Floor(key, safe), newHistory, newValues);
    hide Keeps;
    LatestOfKept(newHistories, newValues, chain[..n - 1], key, Floor(key, safe));
    SamePrefix(chain[..n - 1], chain, key, n - 1);
  }

  lemma KeptReadsOn(histories: HistoryTable, values: ValueTable, chain: seq<Changes>, safe: nat, keys: set<VersionKey>, key: VersionKey)
    requires Represents(histories, values, chain, safe)
    requires safe < |chain| && key !in keys
    ensures var n := |chain|;
            Latest(histories + HistoryDiscards(histories, keys, n), Commit(values, ValueDiscards(keys, n)), key) == ValueAt(chain, key, n)
  {
    LatestMatchesChain(histories, values, chain, key, safe);
  }

  /** Seen through reads: a key reads as before the block exactly when it was discarded, unchanged, or set to what it held. */
  lemma RollbackReadExact(histories: HistoryTable, values: ValueTable, chain: seq<Changes>, safe: nat, keys: set<VersionKey>, key: VersionKey)
    requires Represents(histories, values, chain, safe)
    requires safe < |chain|
    ensures var n := |chain|;
            Latest(histories + HistoryDiscards(histories, keys, n), Commit(values, ValueDiscards(keys, n)), key) == ValueAt(chain, key, n - 1)
            <==> (key in chain[n - 1] ==> key in keys || chain[n - 1][key] == ValueAt(chain, key, n - 1))
    ensures var n := |chain|;
            key !in keys ==> Latest(histories + HistoryDiscards(histories, keys, n), Commit(values, ValueDiscards(keys, n)), key) == ValueAt(chain, key, n)
  {
    hide Represents, Latest, HistoryDiscards, ValueDiscards, Commit;
    if key in keys || key !in chain[|chain| - 1] {
      DiscardedReadsBelow(histories, values, chain, safe, keys, key);
    } else {
      assert ChangedAt(chain, key, |chain|);
    }
    if key !in keys {
      KeptReadsOn(histories, values, chain, safe, keys, key);
    }
  }
}
