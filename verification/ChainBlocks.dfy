/**
 Block and transaction storage against the chain of appended blocks. The reference is a replay: the tables that appending
 the blocks of the chain to an empty store would build.
 */
module ChainBlocks {
  import opened Common
  import opened Types
  import opened Versions
  import opened Enumerations
  import opened Tables
  import opened Batches

  /** The blocks on the chain, oldest innermost, each with the update it was appended with and the changes that made. */
  datatype Chain = Start | Grown(below: Chain, update: Update, changes: Changes) {
    function Height(): nat {
      if Start? then 0 else below.Height() + 1
    }

    function Block(): Block
      requires Grown?
    {
      update.block
    }

    /** The chain up to a height. */
    ghost function Upto(height: nat): (r: Chain)
      requires height <= Height()
      ensures r.Height() == height
    {
      if height == Height() then this else below.Upto(height)
    }
  }

  ghost predicate NoGenesis(block: Block) {
    forall i :: 0 <= i < |block.transactions| ==> !block.transactions[i].payload.Genesis?
  }

  /** None of the block's transactions is indexed, and nothing is stored under its height. */
  ghost predicate FreshTransactions(t: BlockTables, block: Block, height: nat) {
    && DistinctIds(block.transactions)
    && (forall n: nat :: (height, n) !in t.transactionAt)
    && (forall i :: 0 <= i < |block.transactions| ==> block.transactions[i].id !in t.transactionHN)
    && (height > 1 ==> NoGenesis(block))
  }

  /** The block is new to the tables at this height: neither it nor its transactions are stored. */
  ghost predicate Fresh(t: BlockTables, block: Block, height: nat) {
    && DistinctIds(block.transactions)
    && height !in t.header
    && block.header.id !in t.heightOf
    && FreshTransactions(t, block, height)
  }

  function Append(t: BlockTables, block: Block, height: nat): BlockTables
    requires DistinctIds(block.transactions)
  {
    CommitBlocks(t, AppendBlockBatch(block, height))
  }

  function Remove(t: BlockTables, height: nat): BlockTables
    requires height in t.header
  {
    CommitBlocks(t, RollbackBlockBatch(t, height))
  }

  // ---- removing undoes appending ----

  lemma CommitUndone<K(!new), V>(table: map<K, V>, puts: Writes<K, V>, deletes: Writes<K, V>)
    requires forall k :: k in puts ==> puts[k].Some? && k !in table
    requires forall k :: k in deletes ==> deletes[k].None?
    requires deletes.Keys == puts.Keys
    ensures Commit(Commit(table, puts), deletes) == table
  {
  }

  lemma PutThenDelete<K(!new), V>(table: map<K, V>, k: K, v: V)
    requires k !in table
    ensures Commit(Commit(table, map[k := Some(v)]), map[k := None]) == table
    ensures k in Commit(table, map[k := Some(v)]) && Commit(table, map[k := Some(v)])[k] == v
  {
  }

  lemma AppendedNumbers(t: BlockTables, block: Block, height: nat, after: BlockTables, n: nat)
    requires FreshTransactions(t, block, height) && height > 1
    requires after.transactionAt == Commit(t.transactionAt, TransactionPuts(block.transactions, height))
    ensures n in RemovedNumbers(after, height) <==> n < |block.transactions|
    ensures n < |block.transactions| ==> (height, n) in after.transactionAt && after.transactionAt[(height, n)] == block.transactions[n]
  {
    var puts := TransactionPuts(block.transactions, height);
    assert (height, n) in puts <==> n < |block.transactions|;
  }

  lemma UndoTransactions(t: BlockTables, block: Block, height: nat, after: BlockTables)
    requires FreshTransactions(t, block, height) && height > 1
    requires after.transactionAt == Commit(t.transactionAt, TransactionPuts(block.transactions, height))
    ensures Commit(after.transactionAt, RemovedTransactions(after, height)) == t.transactionAt
  {
    var puts, deletes := TransactionPuts(block.transactions, height), RemovedTransactions(after, height);
    forall p: (nat, nat) ensures p in puts <==> p in deletes {
      AppendedNumbers(t, block, height, after, p.1);
    }
    CommitUndone(t.transactionAt, puts, deletes);
  }

  lemma RemovedIdsAre(t: BlockTables, block: Block, height: nat, after: BlockTables, id: Id)
    requires FreshTransactions(t, block, height) && height > 1
    requires after.transactionAt == Commit(t.transactionAt, TransactionPuts(block.transactions, height))
    ensures id in RemovedIds(after, height) <==> id in TransactionIds(block.transactions)
  {
    if id in RemovedIds(after, height) {
      var n: nat :| n in RemovedNumbers(after, height) && after.transactionAt[(height, n)].id == id;
      AppendedNumbers(t, block, height, after, n);
    }
    if id in TransactionIds(block.transactions) {
      var n: nat :| n < |block.transactions| && block.transactions[n].id == id;
      AppendedNumbers(t, block, height, after, n);
    }
  }

  lemma IndexPutAt(txs: seq<Transaction>, height: nat, id: Id)
    requires DistinctIds(txs)
    ensures id in TransactionIndexPuts(txs, height) <==> id in TransactionIds(txs)
    ensures id in TransactionIndexPuts(txs, height) ==> TransactionIndexPuts(txs, height)[id].Some?
  {
    hide DistinctIds, TransactionIds;
  }

  lemma RemovedIdsAreDeletes(t: BlockTables, height: nat, id: Id)
    ensures id in RemovedIds(t, height) ==> RemovedIds(t, height)[id].None?
  {
  }

  lemma NotIndexed(t: BlockTables, block: Block, height: nat, id: Id)
    requires FreshTransactions(t, block, height) && id in TransactionIds(block.transactions)
    ensures id !in t.transactionHN
  {
    var i :| 0 <= i < |block.transactions| && block.transactions[i].id == id;
  }

  lemma UndoIndex(t: BlockTables, block: Block, height: nat, after: BlockTables)
    requires FreshTransactions(t, block, height) && DistinctIds(block.transactions) && height > 1
    requires after.transactionAt == Commit(t.transactionAt, TransactionPuts(block.transactions, height))
    requires after.transactionHN == Commit(t.transactionHN, TransactionIndexPuts(block.transactions, height))
    ensures Commit(after.transactionHN, RemovedIds(after, height)) == t.transactionHN
  {
    hide Commit, TransactionIndexPuts, TransactionPuts, RemovedIds, FreshTransactions, DistinctIds, TransactionIds;
    var puts, deletes := TransactionIndexPuts(block.transactions, height), RemovedIds(after, height);
    forall id ensures id in puts <==> id in deletes
              ensures id in puts ==> puts[id].Some? && id !in t.transactionHN
              ensures id in deletes ==> deletes[id].None?
    {
      RemovedIdsAre(t, block, height, after, id);
      IndexPutAt(block.transactions, height, id);
      RemovedIdsAreDeletes(after, height, id);
      if id in puts {
        NotIndexed(t, block, height, id);
      }
    }
    CommitUndone(t.transactionHN, puts, deletes);
  }

  /** Removing the block just appended gives back exactly the tables before it. */
  lemma RemoveUndoesAppend(t: BlockTables, block: Block, height: nat, after: BlockTables)
    requires Fresh(t, block, height) && height > 1
    requires after == Append(t, block, height)
    ensures height in after.header && after.header[height] == block.header
    ensures Remove(after, height) == t
  {
    UndoTransactions(t, block, height, after);
    UndoIndex(t, block, height, after);
    PutThenDelete(t.header, height, block.header);
    PutThenDelete(t.heightOf, block.header.id, height);
  }

  // ---- replay ----

  /** Every block was new to the store when it was appended. */
  ghost predicate ValidChain(chain: Chain) {
    chain.Start? || (ValidChain(chain.below) && Fresh(Replay(chain.below), chain.Block(), chain.Height()))
  }

  ghost function Replay(chain: Chain): BlockTables {
    if chain.Start? || !DistinctIds(chain.Block().transactions) then BlockTables(map[], map[], map[], map[])
    else Append(Replay(chain.below), chain.Block(), chain.Height())
  }

  ghost function ScoreOf(chain: Chain): nat {
    if chain.Start? then 0 else ScoreOf(chain.below) + chain.Block().header.score
  }

  ghost predicate ScoresStored(b: Blocks, chain: Chain) {
    ScoreAt(b, chain.Height()) == ScoreOf(chain) && (chain.Grown? ==> ScoresStored(b, chain.below))
  }

  ghost predicate BlocksStored(b: Blocks, chain: Chain) {
    && b.height == chain.Height()
    && b.safeRollbackHeight <= chain.Height()
    && ValidChain(chain)
    && b.stored == Replay(chain)
    && ScoresStored(b, chain)
  }

  lemma {:induction false} ScoresKept(b: Blocks, after: Blocks, chain: Chain, height: nat)
    requires ScoresStored(b, chain) && chain.Height() < height
    requires forall h: nat :: h != height ==> ScoreAt(after, h) == ScoreAt(b, h)
    ensures ScoresStored(after, chain)
  {
    if chain.Grown? {
      ScoresKept(b, after, chain.below, height);
    }
  }

  lemma AppendKeepsScores(b: Blocks, chain: Chain, update: Update, changes: Changes, after: Blocks)
    requires ScoresStored(b, chain)
    requires after.score == b.score[chain.Height() + 1 := ScoreAt(b, chain.Height()) + update.block.header.score]
    ensures ScoresStored(after, Grown(chain, update, changes))
  {
    ScoresKept(b, after, chain, chain.Height() + 1);
  }

  lemma ReplayGrown(chain: Chain, update: Update, changes: Changes)
    requires ValidChain(chain) && Fresh(Replay(chain), update.block, chain.Height() + 1)
    ensures var longer := Grown(chain, update, changes);
            ValidChain(longer) && Replay(longer) == Append(Replay(chain), update.block, chain.Height() + 1)
  {
    hide Append, DistinctIds, FreshTransactions;
  }

  lemma ReplayShrunk(chain: Chain)
    requires ValidChain(chain) && chain.Height() > 1
    ensures chain.Height() in Replay(chain).header && Replay(chain).header[chain.Height()] == chain.Block().header
    ensures ValidChain(chain.below) && Remove(Replay(chain), chain.Height()) == Replay(chain.below)
  {
    RemoveUndoesAppend(Replay(chain.below), chain.Block(), chain.Height(), Replay(chain));
  }

  /** Appending a block keeps the storage equal to the replay of the chain. */
  lemma AppendKeepsBlocks(b: Blocks, chain: Chain, update: Update, changes: Changes, maxRollbackDepth: nat, after: Blocks)
    requires BlocksStored(b, chain) && Fresh(b.stored, update.block, chain.Height() + 1)
    requires after == AppendBlocks(b, update.block, chain.Height() + 1, maxRollbackDepth)
    ensures BlocksStored(after, Grown(chain, update, changes))
  {
    var longer := Grown(chain, update, changes);
    hide Commit, ValidChain, Replay, FreshTransactions, DistinctIds, ScoresStored;
    AppendKeepsScores(b, chain, update, changes, after);
    ReplayGrown(chain, update, changes);
    assert after.stored == Append(b.stored, update.block, chain.Height() + 1);
  }

  /** Rolling the last block back gives the storage as if the block had never been appended. */
  lemma RollbackKeepsBlocks(b: Blocks, chain: Chain)
    requires BlocksStored(b, chain) && chain.Height() > 1 && b.safeRollbackHeight < chain.Height()
    ensures chain.Height() in b.stored.header && b.stored.header[chain.Height()] == chain.Block().header
    ensures BlocksStored(RollbackBlocks(b, chain.Height()), chain.below)
  {
    hide Commit, ValidChain, Replay, DistinctIds;
    ReplayShrunk(chain);
    ScoresKept(b, RollbackBlocks(b, chain.Height()), chain.below, chain.Height());
  }

  // ---- what the replay holds ----

  ghost function TransactionIn(chain: Chain, height: nat, n: nat): Option<Transaction> {
    if chain.Start? || height > chain.Height() then None
    else if height < chain.Height() then TransactionIn(chain.below, height, n)
    else if n < |chain.Block().transactions| then Some(chain.Block().transactions[n]) else None
  }

  lemma {:induction false} StoredTransactions(chain: Chain, h: nat, n: nat)
    requires ValidChain(chain)
    ensures Lookup(Replay(chain).transactionAt, (h, n)) == TransactionIn(chain, h, n)
  {
    if chain.Grown? {
      StoredTransactions(chain.below, h, n);
      AppendedTransaction(Replay(chain.below).transactionAt, chain.Block().transactions, chain.Height(), h, n);
      TransactionHeights(chain.below, h, n);
    }
  }

  lemma AppendedTransaction(table: map<(nat, nat), Transaction>, txs: seq<Transaction>, height: nat, h: nat, n: nat)
    ensures Lookup(Commit(table, TransactionPuts(txs, height)), (h, n)) ==
            if h == height && n < |txs| then Some(txs[n]) else Lookup(table, (h, n))
  {
  }

  lemma {:induction false} TransactionHeights(chain: Chain, h: nat, n: nat)
    ensures TransactionIn(chain, h, n).Some? ==> 1 <= h <= chain.Height()
  {
    if chain.Grown? {
      TransactionHeights(chain.below, h, n);
    }
  }

  lemma {:induction false} IndexHeights(chain: Chain, id: Id)
    requires ValidChain(chain)
    ensures id in Replay(chain).transactionHN ==> Replay(chain).transactionHN[id].0 <= chain.Height()
  {
    if chain.Grown? {
      IndexHeights(chain.below, id);
    }
  }

  /** The index of transaction ids holds exactly the transactions on the chain, each under its place. */
  lemma {:induction false} StoredIndex(chain: Chain, id: Id, h: nat, n: nat)
    requires ValidChain(chain)
    ensures Lookup(Replay(chain).transactionHN, id) == Some((h, n)) <==>
            TransactionIn(chain, h, n).Some? && TransactionIn(chain, h, n).value.id == id
  {
    hide Commit, TransactionIndexPuts, TransactionPuts, DistinctIds;
    if chain.Grown? {
      var txs := chain.Block().transactions;
      StoredIndex(chain.below, id, h, n);
      TransactionHeights(chain.below, h, n);
      IndexHeights(chain.below, id);
      AppendedIndex(Replay(chain.below).transactionHN, txs, chain.Height(), id, h, n);
    }
  }

  lemma AppendedIndex(table: map<Id, (nat, nat)>, txs: seq<Transaction>, height: nat, id: Id, h: nat, n: nat)
    requires DistinctIds(txs)
    requires forall i :: 0 <= i < |txs| ==> txs[i].id !in table
    requires id in table ==> table[id].0 < height
    ensures Lookup(Commit(table, TransactionIndexPuts(txs, height)), id) == Some((h, n)) <==>
            if h == height then n < |txs| && txs[n].id == id else Lookup(table, id) == Some((h, n))
  {
    if n < |txs| && txs[n].id == id {
      NumberedIs(txs, n);
    }
    if id in Numbered(txs) {
      assert txs[Numbered(txs)[id]].id == id;
    }
  }

  lemma NumberedIs(txs: seq<Transaction>, n: nat)
    requires DistinctIds(txs) && n < |txs|
    ensures txs[n].id in Numbered(txs) && Numbered(txs)[txs[n].id] == n
  {
    assert txs[n].id in TransactionIds(txs);
  }

  /** The scan finds the transactions of the block in their original order. */
  lemma ScanFindsBlock(chain: Chain, height: nat, txs: seq<Transaction>)
    requires ValidChain(chain)
    requires forall n: nat :: TransactionIn(chain, height, n) == if n < |txs| then Some(txs[n]) else None
    ensures Bare(TransactionsAt(Replay(chain), height)) == txs
  {
    hide ValidChain, Replay, TransactionIn;
    var t := Replay(chain);
    forall n: nat ensures n in NumbersAt(t, height) <==> n < |txs| {
      StoredTransactions(chain, height, n);
    }
    AscendingUpto(NumbersAt(t, height), |txs|);
    var read := TransactionsAt(t, height);
    forall i: nat | i < |txs| ensures read[i].1 == txs[i] {
      StoredTransactions(chain, height, i);
    }
  }

  // ---- blocks that are new to a chain ----

  ghost function BlockIds(chain: Chain): set<Id> {
    if chain.Start? then {} else BlockIds(chain.below) + {chain.Block().header.id}
  }

  ghost function AllTransactionIds(chain: Chain): set<Id> {
    if chain.Start? then {} else AllTransactionIds(chain.below) + TransactionIds(chain.Block().transactions)
  }

  lemma {:induction false} ReplayedIds(chain: Chain, id: Id, height: nat)
    requires ValidChain(chain)
    ensures id in Replay(chain).heightOf ==> id in BlockIds(chain)
    ensures id in Replay(chain).transactionHN ==> id in AllTransactionIds(chain)
    ensures height in Replay(chain).header ==> height <= chain.Height()
  {
    hide Commit, FreshTransactions, TransactionPuts, TransactionIndexPuts, TransactionIds, DistinctIds;
    if chain.Grown? {
      ReplayedIds(chain.below, id, height);
      var t, w := Replay(chain.below), AppendBlockBatch(chain.Block(), chain.Height());
      CommitAt(t.heightOf, w.heightOf, id);
      CommitAt(t.header, w.header, height);
      CommitAt(t.transactionHN, w.transactionHN, id);
      IndexPutAt(chain.Block().transactions, chain.Height(), id);
    }
  }

  /** A block whose id and transactions are not on the chain is fresh to the store. */
  lemma NewIsFresh(b: Blocks, chain: Chain, block: Block)
    requires BlocksStored(b, chain)
    requires block.header.id !in BlockIds(chain) && TransactionIds(block.transactions) !! AllTransactionIds(chain)
    requires DistinctIds(block.transactions) && (chain.Height() > 0 ==> NoGenesis(block))
    ensures Fresh(b.stored, block, b.height + 1)
  {
    hide ValidChain, Replay, ScoresStored, DistinctIds, NoGenesis;
    var next := chain.Height() + 1;
    ReplayedIds(chain, block.header.id, next);
    forall n: nat ensures (next, n) !in b.stored.transactionAt {
      StoredTransactions(chain, next, n);
      TransactionHeights(chain, next, n);
    }
    forall i | 0 <= i < |block.transactions| ensures block.transactions[i].id !in b.stored.transactionHN {
      ReplayedIds(chain, block.transactions[i].id, next);
    }
  }

  /** Every block of the chain is found under its height. */
  lemma {:induction false} BlockHeight(chain: Chain, height: nat)
    requires ValidChain(chain) && 1 <= height <= chain.Height()
    ensures chain.Upto(height).Grown? && Lookup(Replay(chain).heightOf, chain.Upto(height).Block().header.id) == Some(height)
  {
    hide Commit, FreshTransactions, TransactionPuts, TransactionIndexPuts, DistinctIds;
    CommitAt(Replay(chain.below).heightOf, map[chain.Block().header.id := Some(chain.Height())], chain.Upto(height).Block().header.id);
    if height < chain.Height() {
      BlockHeight(chain.below, height);
    }
  }
}
