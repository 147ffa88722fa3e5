/**
 The windowed duplicate check: ids of recent transactions are kept in memory, and the store is asked only about transactions
 that are old enough to have left the window.
 */
module Window {
  import opened Common
  import opened Types
  import opened Tables
  import opened Batches
  import opened ChainBlocks
  import opened Enumerations
  import Versions

  const LONG_MAX_VALUE: int := 0x7FFF_FFFF_FFFF_FFFF
  const TWO_HOURS: int := 2 * 60 * 60 * 1000

  // ---- the chain ----

  /** The heights of the transactions on the chain. */
  ghost function HeightOfTransaction(chain: Chain, id: Id): Option<nat> {
    var place := Lookup(Replay(chain).transactionHN, id);
    if place.Some? then Some(place.value.0) else None
  }

  ghost predicate OnChain(chain: Chain, id: Id) {
    exists h: nat, n: nat :: TransactionIn(chain, h, n).Some? && TransactionIn(chain, h, n).value.id == id
  }

  lemma OnChainIsStored(chain: Chain, id: Id)
    requires ValidChain(chain)
    ensures OnChain(chain, id) <==> id in Replay(chain).transactionHN
  {
    if OnChain(chain, id) {
      var h: nat, n: nat :| TransactionIn(chain, h, n).Some? && TransactionIn(chain, h, n).value.id == id;
      StoredIndex(chain, id, h, n);
    }
    if id in Replay(chain).transactionHN {
      var (h, n) := Replay(chain).transactionHN[id];
      StoredIndex(chain, id, h, n);
    }
  }

  ghost function TimestampAt(chain: Chain, height: nat): int
    requires 1 <= height <= chain.Height()
  {
    if height == chain.Height() then chain.Block().header.timestamp else TimestampAt(chain.below, height)
  }

  /** Block timestamps fit 64 bits and do not decrease. */
  ghost predicate Timed(chain: Chain) {
    chain.Grown? ==>
      && Timed(chain.below)
      && chain.Block().header.timestamp <= LONG_MAX_VALUE
      && (chain.below.Grown? ==> chain.below.Block().header.timestamp <= chain.Block().header.timestamp)
  }

  lemma {:induction false} NotLater(chain: Chain, height: nat)
    requires Timed(chain) && 1 <= height <= chain.Height()
    ensures TimestampAt(chain, height) <= chain.Block().header.timestamp <= LONG_MAX_VALUE
  {
    if height < chain.Height() {
      NotLater(chain.below, height);
    }
  }

  lemma {:induction false} NotLaterThan(chain: Chain, height: nat, later: nat)
    requires Timed(chain) && 1 <= height <= later <= chain.Height()
    ensures TimestampAt(chain, height) <= TimestampAt(chain, later)
  {
    if later == chain.Height() {
      NotLater(chain, height);
    } else {
      NotLaterThan(chain.below, height, later);
    }
  }

  lemma TopTransactions(chain: Chain, id: Id)
    requires ValidChain(chain) && chain.Grown?
    ensures HeightOfTransaction(chain, id) ==
            if id in TransactionIds(chain.Block().transactions) then Some(chain.Height()) else HeightOfTransaction(chain.below, id)
    ensures id in TransactionIds(chain.Block().transactions) ==> HeightOfTransaction(chain.below, id) == None
  {
    hide TransactionPuts, RemovedIds, TransactionIds, DistinctIds, Commit;
    var t, txs := Replay(chain.below), chain.Block().transactions;
    CommitAt(t.transactionHN, TransactionIndexPuts(txs, chain.Height()), id);
    if id in TransactionIds(txs) {
      NotIndexed(t, chain.Block(), chain.Height(), id);
    }
  }

  lemma NothingAtStart(chain: Chain, id: Id)
    requires chain.Start?
    ensures HeightOfTransaction(chain, id) == None
  {
  }

  lemma {:induction false} HeightInRange(chain: Chain, id: Id)
    requires ValidChain(chain)
    ensures HeightOfTransaction(chain, id).Some? ==> 1 <= HeightOfTransaction(chain, id).value <= chain.Height()
  {
    hide HeightOfTransaction, Fresh, TransactionIds;
    if chain.Grown? {
      TopTransactions(chain, id);
      HeightInRange(chain.below, id);
    } else {
      NothingAtStart(chain, id);
    }
  }

  // ---- the window ----

  /**
   With `horizon` the first height whose transactions are in memory: memory holds exactly the chain's transactions from there
   on, everything below is not later than the oldest timestamp, and the timestamps kept for blocks of the chain are right.
   Entries above the chain are left over from blocks that were rolled back.
   */
  ghost predicate Windowed(chain: Chain, horizon: nat, blocksTs: map<nat, int>, oldest: int, ids: map<Id, nat>) {
    ValidChain(chain) && Timed(chain) && IdsWindowed(chain, horizon, ids) && TimesWindowed(chain, horizon, blocksTs, oldest)
  }

  ghost predicate IdsWindowed(chain: Chain, horizon: nat, ids: map<Id, nat>) {
    && (forall id :: id in ids ==> HeightOfTransaction(chain, id) == Some(ids[id]))
    && (forall id :: HeightOfTransaction(chain, id).Some? && HeightOfTransaction(chain, id).value >= horizon ==> id in ids)
  }

  ghost predicate TimesWindowed(chain: Chain, horizon: nat, blocksTs: map<nat, int>, oldest: int) {
    && (forall h: nat :: 1 <= h <= chain.Height() && h < horizon ==> TimestampAt(chain, h) <= oldest)
    && (forall h :: h in blocksTs && 1 <= h <= chain.Height() ==> blocksTs[h] == TimestampAt(chain, h))
    && (forall h :: h in blocksTs ==> h >= horizon && h >= 1)
  }

  lemma AppendKeepsIds(chain: Chain, horizon: nat, ids: map<Id, nat>, longer: Chain, first: nat, newIds: map<Id, nat>, keptIds: map<Id, nat>)
    requires IdsWindowed(chain, horizon, ids) && ValidChain(chain)
    requires longer.Grown? && longer.below == chain && ValidChain(longer)
    requires horizon <= first <= longer.Height() || first == longer.Height()
    requires newIds == ids + map id | id in TransactionIds(longer.Block().transactions) :: longer.Height()
    requires keptIds == map id | id in newIds && newIds[id] >= first :: newIds[id]
    ensures IdsWindowed(longer, first, keptIds)
  {
    hide HeightOfTransaction, ValidChain, TransactionIds;
    forall id ensures id in keptIds ==> HeightOfTransaction(longer, id) == Some(keptIds[id])
              ensures HeightOfTransaction(longer, id).Some? && HeightOfTransaction(longer, id).value >= first ==> id in keptIds
    {
      TopTransactions(longer, id);
      HeightInRange(chain, id);
    }
  }

  /** The new horizon is the lowest height with a timestamp: an old one, or the new block's own after a rollback below all others. */
  lemma AppendKeepsTimes(chain: Chain, horizon: nat, blocksTs: map<nat, int>, oldest: int, longer: Chain,
                         first: nat, newTs: map<nat, int>, keptTs: map<nat, int>)
    requires TimesWindowed(chain, horizon, blocksTs, oldest) && Timed(longer)
    requires longer.Grown? && longer.below == chain
    requires newTs == blocksTs[longer.Height() := longer.Block().header.timestamp]
    requires first in newTs && forall h :: h in newTs ==> first <= h
    requires keptTs.Keys <= newTs.Keys && forall h :: h in keptTs ==> keptTs[h] == newTs[h]
    ensures 1 <= first <= longer.Height() && (horizon <= first || first == longer.Height())
    ensures TimesWindowed(longer, first, keptTs, newTs[first])
  {
    assert longer.Height() in newTs;
    forall h: nat | 1 <= h <= longer.Height() && h < first ensures TimestampAt(longer, h) <= newTs[first] {
      NotLaterThan(longer, h, first);
    }
  }

  lemma RollbackKeepsIds(chain: Chain, horizon: nat, ids: map<Id, nat>, keptIds: map<Id, nat>)
    requires IdsWindowed(chain, horizon, ids) && ValidChain(chain) && chain.Grown?
    requires keptIds == ids - TransactionIds(chain.Block().transactions)
    ensures IdsWindowed(chain.below, horizon, keptIds)
  {
    hide HeightOfTransaction, TransactionIds, ValidChain;
    forall id ensures id in keptIds ==> HeightOfTransaction(chain.below, id) == Some(keptIds[id])
              ensures HeightOfTransaction(chain.below, id).Some? && HeightOfTransaction(chain.below, id).value >= horizon ==> id in keptIds
    {
      TopTransactions(chain, id);
    }
  }

  lemma RollbackKeepsWindow(chain: Chain, horizon: nat, blocksTs: map<nat, int>, oldest: int, ids: map<Id, nat>, keptIds: map<Id, nat>)
    requires Windowed(chain, horizon, blocksTs, oldest, ids) && chain.Grown?
    requires keptIds == ids - TransactionIds(chain.Block().transactions)
    ensures Windowed(chain.below, horizon, blocksTs, oldest, keptIds)
  {
    hide IdsWindowed, TimesWindowed, TransactionIds, Fresh, Replay;
    RollbackKeepsIds(chain, horizon, ids, keptIds);
    RollbackKeepsTimes(chain, horizon, blocksTs, oldest);
  }

  lemma RollbackKeepsTimes(chain: Chain, horizon: nat, blocksTs: map<nat, int>, oldest: int)
    requires TimesWindowed(chain, horizon, blocksTs, oldest) && chain.Grown?
    ensures TimesWindowed(chain.below, horizon, blocksTs, oldest)
  {
    forall h: nat | 1 <= h <= chain.below.Height() ensures TimestampAt(chain.below, h) == TimestampAt(chain, h) {
    }
  }

  /** What is in memory is on the chain; what is on the chain and not in memory is old, if it is dated within two hours of its block. */
  lemma WindowKnows(chain: Chain, horizon: nat, blocksTs: map<nat, int>, oldest: int, ids: map<Id, nat>, tx: Transaction)
    requires Windowed(chain, horizon, blocksTs, oldest, ids)
    ensures OnChain(chain, tx.id) <==> tx.id in Replay(chain).transactionHN
    ensures tx.id in ids ==> OnChain(chain, tx.id)
    ensures OnChain(chain, tx.id) && tx.id !in ids && DatedWithin(chain, tx, TWO_HOURS) ==> tx.timestamp - TWO_HOURS <= oldest
  {
    hide ValidChain, Timed, OnChain, Replay, TimestampAt;
    OnChainIsStored(chain, tx.id);
    HeightInRange(chain, tx.id);
    var height := HeightOfTransaction(chain, tx.id);
    if tx.id in ids {
      assert height == Some(ids[tx.id]);
    }
  }

  class TransactionWindow {
    const rememberBlocksInterval: int
    var blocksTs: map<nat, int>
    var oldestStoredBlockTimestamp: int
    var transactionIds: map<Id, nat>
    ghost var chain: Chain
    ghost var horizon: nat

    ghost predicate Valid()
      reads this
    {
      Windowed(chain, horizon, blocksTs, oldestStoredBlockTimestamp, transactionIds)
    }

    /** Also what a restart leaves: nothing in memory, whatever the chain. */
    constructor (ghost chain: Chain, rememberBlocksInterval: int)
      requires ValidChain(chain) && Timed(chain)
      ensures Valid() && this.chain == chain
    {
      this.rememberBlocksInterval := rememberBlocksInterval;
      blocksTs, oldestStoredBlockTimestamp, transactionIds := map[], LONG_MAX_VALUE, map[];
      this.chain, horizon := chain, chain.Height() + 1;
      new;
      forall id ensures HeightOfTransaction(chain, id).Some? ==> HeightOfTransaction(chain, id).value <= chain.Height() {
        HeightInRange(chain, id);
      }
      forall h: nat | 1 <= h <= chain.Height() ensures TimestampAt(chain, h) <= LONG_MAX_VALUE {
        NotLater(chain, h);
      }
    }

    /** Forgets old blocks; the timestamp it remembers is that of the oldest block before it does. */
    method ForgetBlocks(lastBlockTimestamp: int)
      modifies this`blocksTs, this`oldestStoredBlockTimestamp, this`transactionIds
      ensures forall h :: h in blocksTs <==> h in old(blocksTs) && old(blocksTs)[h] >= lastBlockTimestamp - rememberBlocksInterval
      ensures forall h :: h in blocksTs ==> blocksTs[h] == old(blocksTs)[h]
      ensures var first := if old(blocksTs) == map[] then 0 else Least(old(blocksTs).Keys);
              && oldestStoredBlockTimestamp == (if old(blocksTs) == map[] then LONG_MAX_VALUE else old(blocksTs)[first])
              && transactionIds == map id | id in old(transactionIds) && old(transactionIds)[id] >= first :: old(transactionIds)[id]
    {
      var (oldestBlock, oldestTs) := if blocksTs == map[] then (0, LONG_MAX_VALUE) else (Least(blocksTs.Keys), blocksTs[Least(blocksTs.Keys)]);
      oldestStoredBlockTimestamp := oldestTs;
      var bts := lastBlockTimestamp - rememberBlocksInterval;
      blocksTs := map h | h in blocksTs && blocksTs[h] >= bts :: blocksTs[h];
      transactionIds := map id | id in transactionIds && transactionIds[id] >= oldestBlock :: transactionIds[id];
    }

    /** What append does to the window: the block's transactions and timestamp go in, old blocks are forgotten. */
    method Append(block: Block, newHeight: nat, ghost longer: Chain)
      requires Valid()
      requires longer.Grown? && longer.below == chain && longer.Block() == block && longer.Height() == newHeight
      requires ValidChain(longer) && Timed(longer)
      modifies this
      ensures Valid() && chain == longer
    {
      hide IdsWindowed, TimesWindowed, ValidChain, Timed, TransactionIds;
      ghost var ts0, oldest0, ids0 := blocksTs, oldestStoredBlockTimestamp, transactionIds;
      NoIds(block.transactions[..0]);
      var i := 0;
      while i < |block.transactions|
        invariant i <= |block.transactions|
        invariant transactionIds == ids0 + map id | id in TransactionIds(block.transactions[..i]) :: newHeight
        modifies this`transactionIds
      {
        transactionIds := transactionIds[block.transactions[i].id := newHeight];
        MoreIds(block.transactions, i);
        i := i + 1;
      }
      assert block.transactions[..i] == block.transactions;
      blocksTs := blocksTs[newHeight := block.header.timestamp];
      ghost var newTs, newIds := blocksTs, transactionIds;
      assert newHeight in newTs.Keys;
      ForgetBlocks(block.header.timestamp);
      ghost var first := Least(newTs.Keys);
      AppendKeepsTimes(chain, horizon, ts0, oldest0, longer, first, newTs, blocksTs);
      AppendKeepsIds(chain, horizon, ids0, longer, first, newIds, transactionIds);
      chain, horizon := longer, first;
    }

    /** What the rollback of one block does to the window: its transactions are forgotten, its timestamp stays. */
    method Rollback(transactions: seq<Transaction>)
      requires Valid() && chain.Grown? && transactions == chain.Block().transactions
      modifies this`transactionIds, this`chain
      ensures Valid() && chain == old(chain).below
    {
      hide Windowed;
      ghost var ids0 := transactionIds;
      var i := 0;
      while i < |transactions|
        invariant i <= |transactions|
        invariant transactionIds == ids0 - TransactionIds(transactions[..i])
        modifies this`transactionIds
      {
        transactionIds := transactionIds - {transactions[i].id};
        MoreIds(transactions, i);
        i := i + 1;
      }
      assert transactions[..i] == transactions;
      RollbackKeepsWindow(chain, horizon, blocksTs, oldestStoredBlockTimestamp, ids0, transactionIds);
      chain := chain.below;
    }

    /**
     Whether the transaction is on the chain. The answer is wrong in exactly one case: the transaction is on the chain, has
     left the window, and claims to be too new to have left it. With transactions dated at most two hours after their block
     the check is exact.
     */
    method ContainsTransaction(tx: Transaction, stored: BlockTables) returns (r: bool)
      requires Valid() && stored == Replay(chain)
      ensures r <==> OnChain(chain, tx.id) && (tx.id in transactionIds || tx.timestamp - 7_200_000 <= oldestStoredBlockTimestamp)
      ensures DatedWithin(chain, tx, 7_200_000) ==> (r <==> OnChain(chain, tx.id))
    {
      hide Windowed, OnChain, DatedWithin;
      WindowKnows(chain, horizon, blocksTs, oldestStoredBlockTimestamp, transactionIds, tx);
      r := tx.id in transactionIds || (tx.timestamp - TWO_HOURS <= oldestStoredBlockTimestamp && tx.id in stored.transactionHN);
    }
  }

  /** If the transaction is on the chain, it is dated no later than this long after its block. */
  ghost predicate DatedWithin(chain: Chain, tx: Transaction, delay: int) {
    var height := HeightOfTransaction(chain, tx.id);
    height.Some? && 1 <= height.value <= chain.Height() ==> tx.timestamp <= TimestampAt(chain, height.value) + delay
  }

  lemma NoIds(none: seq<Transaction>)
    requires none == []
    ensures TransactionIds(none) == {}
  {
  }

  lemma MoreIds(txs: seq<Transaction>, i: nat)
    requires i < |txs|
    ensures TransactionIds(txs[..i + 1]) == TransactionIds(txs[..i]) + {txs[i].id}
  {
    assert txs[..i + 1][i] == txs[i];
    assert forall j :: 0 <= j < i ==> txs[..i + 1][j] == txs[..i][j];
  }
}
