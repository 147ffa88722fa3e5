/** A read-write batch over the versioned state: reads see the snapshot, writes wait for the commit (RW, readWrite). */
module ReadWrite {
  import opened Common
  import opened Types
  import opened Histories
  import opened Versions
  import opened Tables
  import opened Batches

  /** The values that an append still has to delete: the source's expiredKeys. */
  type ExpiredValues = set<(VersionKey, nat)>

  class RW {
    const snapshot: State
    const height: nat
    var history: HistoryTable
    var value: Writes<(VersionKey, nat), Value>

    constructor (snapshot: State, height: nat)
      ensures this.snapshot == snapshot && this.height == height
      ensures history == map[] && value == map[]
    {
      this.snapshot := snapshot;
      this.height := height;
      history := map[];
      value := map[];
    }

    method PutHistory(key: VersionKey, heights: seq<nat>)
      modifies this`history
      ensures history == old(history)[key := heights]
    {
      history := history[key := heights];
    }

    method Put(key: VersionKey, at: nat, v: Value)
      modifies this`value
      ensures value == old(value)[(key, at) := Some(v)]
    {
      value := value[(key, at) := Some(v)];
    }

    method Delete(key: VersionKey, at: nat)
      modifies this`value
      ensures value == old(value)[(key, at) := None]
    {
      value := value[(key, at) := None];
    }

    method FilterHistory(key: VersionKey, heightToRemove: nat)
      modifies this`history
      ensures history == old(history)[key := Without(HistoryOf(snapshot.history, key), heightToRemove)]
    {
      PutHistory(key, Without(HistoryOf(snapshot.history, key), heightToRemove));
    }

    /** Puts the history that a change at the batch's height leads to; the heights it drops are returned. */
    method UpdateHistory(key: VersionKey, threshold: int) returns (expired: seq<nat>)
      modifies this`history
      ensures history == old(history)[key := Updated(HistoryOf(snapshot.history, key), height, threshold)]
      ensures expired == Expired(HistoryOf(snapshot.history, key), threshold)
    {
      var c1, c2 := Above(HistoryOf(snapshot.history, key), threshold), NotAbove(HistoryOf(snapshot.history, key), threshold);
      var kept := if c2 == [] then 0 else 1;
      PutHistory(key, [height] + c1 + c2[..kept]);
      expired := c2[kept..];
    }

    /** The batch holds what appending the changes puts; the values they expire are set aside. */
    ghost predicate Appends(changes: Changes, expired: ExpiredValues, maxRollbackDepth: nat)
      reads this
    {
      && history == HistoryWrites(snapshot.history, changes, height, maxRollbackDepth)
      && value == ValuePuts(changes, height)
      && expired == ExpiredKeys(snapshot.history, changes, height, maxRollbackDepth)
    }

    /** The batch discards the keys at its height and holds nothing else. */
    ghost predicate Discards(keys: set<VersionKey>)
      reads this
    {
      history == HistoryDiscards(snapshot.history, keys, height) && value == ValueDiscards(keys, height)
    }

    /** One change: the value, the history, and what the history drops. */
    method Change(key: VersionKey, v: Option<Value>, maxRollbackDepth: nat, expiredKeys: ExpiredValues, ghost changes: Changes)
      returns (allExpired: ExpiredValues)
      requires Appends(changes, expiredKeys, maxRollbackDepth) && key !in changes
      modifies this
      ensures Appends(changes[key := v], allExpired, maxRollbackDepth)
    {
      hide Appends, HistoryWrites, ValuePuts, ExpiredKeys, Updated, Expired, Threshold;
      AppendsIs(changes, expiredKeys, maxRollbackDepth);
      var expired := UpdateHistory(key, Threshold(key, height, maxRollbackDepth));
      if v.Some? {
        Put(key, height, v.value);
      }
      allExpired := expiredKeys + set i | i in expired :: (key, i);
      ChangeWrites(snapshot.history, changes, key, v, height, maxRollbackDepth);
      AppendsIs(changes[key := v], allExpired, maxRollbackDepth);
    }

    lemma AppendsIs(changes: Changes, expired: ExpiredValues, maxRollbackDepth: nat)
      ensures Appends(changes, expired, maxRollbackDepth) <==>
              && history == HistoryWrites(snapshot.history, changes, height, maxRollbackDepth)
              && value == ValuePuts(changes, height)
              && expired == ExpiredKeys(snapshot.history, changes, height, maxRollbackDepth)
    {
    }

    /** One key of a rollback. */
    method Discard(key: VersionKey, ghost keys: set<VersionKey>)
      requires Discards(keys)
      modifies this
      ensures Discards(keys + {key})
    {
      hide Without, HistoryOf;
      Delete(key, height);
      FilterHistory(key, height);
    }

    /** The expired values go last. */
    method DeleteExpired(expiredKeys: ExpiredValues)
      modifies this`value
      ensures value == old(value) + Deletes(expiredKeys)
    {
      var todo := expiredKeys;
      while todo != {}
        invariant todo <= expiredKeys
        invariant value == old(value) + Deletes(expiredKeys - todo)
      {
        var k :| k in todo;
        Delete(k.0, k.1);
        todo := todo - {k};
      }
    }
  }

  lemma ChangeWrites(histories: HistoryTable, changes: Changes, key: VersionKey, v: Option<Value>, height: nat, maxRollbackDepth: nat)
    requires key !in changes
    ensures var threshold := Threshold(key, height, maxRollbackDepth);
            && HistoryWrites(histories, changes[key := v], height, maxRollbackDepth) ==
               HistoryWrites(histories, changes, height, maxRollbackDepth)[key := Updated(HistoryOf(histories, key), height, threshold)]
            && ExpiredKeys(histories, changes[key := v], height, maxRollbackDepth) ==
               ExpiredKeys(histories, changes, height, maxRollbackDepth) + (set i | i in Expired(HistoryOf(histories, key), threshold) :: (key, i))
    ensures ValuePuts(changes[key := v], height) ==
            if v.Some? then ValuePuts(changes, height)[(key, height) := v] else ValuePuts(changes, height)
  {
    hide Updated, Expired, HistoryOf, ValuePuts, ExpiredKeys;
    ChangeExpires(histories, changes, key, v, height, maxRollbackDepth);
    ChangePuts(changes, key, v, height);
  }

  lemma ChangeExpires(histories: HistoryTable, changes: Changes, key: VersionKey, v: Option<Value>, height: nat, maxRollbackDepth: nat)
    requires key !in changes
    ensures ExpiredKeys(histories, changes[key := v], height, maxRollbackDepth) ==
            ExpiredKeys(histories, changes, height, maxRollbackDepth) +
            (set i | i in Expired(HistoryOf(histories, key), Threshold(key, height, maxRollbackDepth)) :: (key, i))
  {
    hide Expired, HistoryOf, Threshold;
  }

  lemma PutAt(changes: Changes, height: nat, key: VersionKey, i: nat)
    ensures Lookup(ValuePuts(changes, height), (key, i)) ==
            if i == height && key in changes && changes[key].Some? then Some(changes[key]) else None
  {
  }

  lemma ChangePuts(changes: Changes, key: VersionKey, v: Option<Value>, height: nat)
    requires key !in changes
    ensures ValuePuts(changes[key := v], height) ==
            if v.Some? then ValuePuts(changes, height)[(key, height) := v] else ValuePuts(changes, height)
  {
    hide ValuePuts;
    var left, right := ValuePuts(changes[key := v], height), if v.Some? then ValuePuts(changes, height)[(key, height) := v] else ValuePuts(changes, height);
    forall p: (VersionKey, nat) ensures Lookup(left, p) == Lookup(right, p) {
      PutAt(changes, height, p.0, p.1);
      PutAt(changes[key := v], height, p.0, p.1);
    }
    SameTable(left, right);
  }
}
