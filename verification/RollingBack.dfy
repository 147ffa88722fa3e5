/** doRollback: the batch that undoes one block, and what the caches have to drop with it. */
module RollingBack {
  import opened Common
  import opened Types
  import opened Versions
  import opened Enumerations
  import opened Tables
  import opened Batches
  import opened ReadWrite
  import opened ChainAddressTxs

  // ---- what the caches have to drop ----

  function BalanceAssets(s: State, id: nat): set<Option<AssetId>> {
    {None} + set asset | asset in AssetList(s, id) :: Some(asset)
  }

  ghost predicate ChangedAreKnown(db: Tables, height: nat) {
    forall id :: id in ChangedAddresses(db.state, height) ==> id in db.addresses.idToAddress
  }

  function BalancesToInvalidate(db: Tables, ids: set<nat>): set<(Address, Option<AssetId>)>
    requires forall id :: id in ids ==> id in db.addresses.idToAddress
  {
    set id, asset | id in ids && asset in BalanceAssets(db.state, id) :: (db.addresses.idToAddress[id], asset)
  }

  function PortfoliosToInvalidate(db: Tables, ids: set<nat>): set<Address>
    requires forall id :: id in ids ==> id in db.addresses.idToAddress
  {
    set id | id in ids :: db.addresses.idToAddress[id]
  }

  function OrdersOf(tx: Transaction): set<Id> {
    match tx.payload
    case Exchange(buy, sell) => {buy, sell}
    case _ => {}
  }

  function ScriptsOf(tx: Transaction): set<Address> {
    match tx.payload
    case SetScript(sender) => {sender}
    case _ => {}
  }

  function AssetScriptsOf(tx: Transaction): set<AssetId> {
    match tx.payload
    case SetAssetScript(asset) => {asset}
    case _ => {}
  }

  function OrdersIn(txs: seq<Transaction>): set<Id> {
    if txs == [] then {} else OrdersOf(txs[0]) + OrdersIn(txs[1..])
  }

  function ScriptsIn(txs: seq<Transaction>): set<Address> {
    if txs == [] then {} else ScriptsOf(txs[0]) + ScriptsIn(txs[1..])
  }

  function AssetScriptsIn(txs: seq<Transaction>): set<AssetId> {
    if txs == [] then {} else AssetScriptsOf(txs[0]) + AssetScriptsIn(txs[1..])
  }

  datatype Stale = Stale(
    addressIds: set<nat>,
    balances: set<(Address, Option<AssetId>)>,
    portfolios: set<Address>,
    orders: set<Id>,
    scripts: set<Address>,
    assetScripts: set<AssetId>)

  function StaleAfter(db: Tables, height: nat): Stale
    requires ChangedAreKnown(db, height)
  {
    var ids, txs := ChangedAddresses(db.state, height), Bare(TransactionsAt(db.blocks.stored, height));
    Stale(ids, BalancesToInvalidate(db, ids), PortfoliosToInvalidate(db, ids), OrdersIn(txs), ScriptsIn(txs), AssetScriptsIn(txs))
  }

  // ---- the loops ----

  method DiscardAll(rw: RW, keys: set<VersionKey>, ghost discarded: set<VersionKey>)
    requires rw.Discards(discarded)
    modifies rw
    ensures rw.Discards(discarded + keys)
  {
    hide rw.Discards;
    var todo := keys;
    assert discarded + (keys - todo) == discarded;
    while todo != {}
      invariant todo <= keys
      invariant rw.Discards(discarded + (keys - todo))
    {
      ghost var before := discarded + (keys - todo);
      var key :| key in todo;
      rw.Discard(key, before);
      todo := todo - {key};
      assert discarded + (keys - todo) == before + {key};
    }
    assert keys - todo == keys;
  }

  method RollbackAddresses(db: Tables, rw: RW, height: nat)
    returns (w: AddressTxBatch, balances: set<(Address, Option<AssetId>)>, portfolios: set<Address>)
    requires ChangedAreKnown(db, height) && rw.Discards({})
    modifies rw
    ensures rw.Discards(UndoneForAddresses(db.state, height, ChangedAddresses(db.state, height)))
    ensures w == RollbackAddressTxBatch(db.addressTxs, ChangedAddresses(db.state, height), height)
    ensures balances == BalancesToInvalidate(db, ChangedAddresses(db.state, height))
    ensures portfolios == PortfoliosToInvalidate(db, ChangedAddresses(db.state, height))
  {
    hide rw.Discards, UndoneForAddresses, AssetList, ChangedDataKeys, BalancesToInvalidate, PortfoliosToInvalidate, TxsRolledBack,
      RollbackAddressTxBatch;
    var ids := ChangedAddresses(db.state, height);
    var todo := ids;
    var seqNr: map<nat, nat> := map[];
    var hn: Writes<(nat, nat), Entry> := map[];
    balances, portfolios := {}, {};
    NobodyRolledBack(db, height, ids);
    while todo != {}
      invariant todo <= ids
      invariant rw.Discards(UndoneForAddresses(db.state, height, ids - todo))
      invariant TxsRolledBack(db.addressTxs, ids - todo, height, seqNr, hn)
      invariant balances == BalancesToInvalidate(db, ids - todo)
      invariant portfolios == PortfoliosToInvalidate(db, ids - todo)
    {
      ghost var done := ids - todo;
      var id :| id in todo;
      var address := db.addresses.idToAddress[id];
      var assets := BalanceAssets(db.state, id);
      balances := balances + set asset | asset in assets :: (address, asset);
      DiscardAll(rw, UndoneForAddress(id, AssetList(db.state, id), ChangedDataKeys(db.state, height, id)),
                 UndoneForAddresses(db.state, height, done));
      portfolios := portfolios + {address};
      OneRolledBack(db, height, done, id, seqNr, hn);
      if EndsAt(db.addressTxs, id, height) {
        var txSeqNr := SeqNr(db.addressTxs, id);
        hn := hn[(id, txSeqNr) := None];
        seqNr := seqNr[id := Previous(txSeqNr)];
      }
      todo := todo - {id};
      assert ids - todo == done + {id};
    }
    assert ids - todo == ids;
    AllRolledBack(db.addressTxs, ids, height, seqNr, hn);
    w := AddressTxBatch(seqNr, hn);
  }

  ghost predicate TxsRolledBack(a: AddressTxs, ids: set<nat>, height: nat, seqNr: map<nat, nat>, hn: Writes<(nat, nat), Entry>) {
    && seqNr == RollbackAddressTxBatch(a, ids, height).seqNr
    && forall p: (nat, nat) :: Lookup(hn, p) == if p.0 in ids && EndsAt(a, p.0, height) && p.1 == SeqNr(a, p.0) then Some(None) else None
  }

  lemma NobodyRolledBack(db: Tables, height: nat, ids: set<nat>)
    ensures UndoneForAddresses(db.state, height, ids - ids) == {}
    ensures BalancesToInvalidate(db, ids - ids) == {} && PortfoliosToInvalidate(db, ids - ids) == {}
    ensures TxsRolledBack(db.addressTxs, ids - ids, height, map[], map[])
  {
    hide EndsAt, SeqNr;
  }

  lemma OneRolledBack(db: Tables, height: nat, done: set<nat>, id: nat, seqNr: map<nat, nat>, hn: Writes<(nat, nat), Entry>)
    requires id in db.addresses.idToAddress && id !in done
    requires forall i :: i in done ==> i in db.addresses.idToAddress
    requires TxsRolledBack(db.addressTxs, done, height, seqNr, hn)
    ensures UndoneForAddresses(db.state, height, done + {id}) ==
            UndoneForAddresses(db.state, height, done) + UndoneForAddress(id, AssetList(db.state, id), ChangedDataKeys(db.state, height, id))
    ensures BalancesToInvalidate(db, done + {id}) ==
            BalancesToInvalidate(db, done) + set asset | asset in BalanceAssets(db.state, id) :: (db.addresses.idToAddress[id], asset)
    ensures PortfoliosToInvalidate(db, done + {id}) == PortfoliosToInvalidate(db, done) + {db.addresses.idToAddress[id]}
    ensures var n := SeqNr(db.addressTxs, id);
            if EndsAt(db.addressTxs, id, height)
            then TxsRolledBack(db.addressTxs, done + {id}, height, seqNr[id := Previous(n)], hn[(id, n) := None])
            else TxsRolledBack(db.addressTxs, done + {id}, height, seqNr, hn)
  {
    hide AssetList, ChangedDataKeys, UndoneForAddress, BalanceAssets;
    TxsOneRolledBack(db.addressTxs, height, done, id, seqNr, hn);
    hide TxsRolledBack, EndsAt, SeqNr;
    OneMoreUndone(db.state, height, done, id);
  }

  lemma OneMoreUndone(s: State, height: nat, done: set<nat>, id: nat)
    ensures UndoneForAddresses(s, height, done + {id}) ==
            UndoneForAddresses(s, height, done) + UndoneForAddress(id, AssetList(s, id), ChangedDataKeys(s, height, id))
  {
    hide AssetList, ChangedDataKeys, UndoneForAddress;
  }

  lemma SeqNrsOneRolledBack(a: AddressTxs, height: nat, done: set<nat>, id: nat)
    requires id !in done
    ensures RollbackAddressTxBatch(a, done + {id}, height).seqNr ==
            if EndsAt(a, id, height) then RollbackAddressTxBatch(a, done, height).seqNr[id := Previous(SeqNr(a, id))]
            else RollbackAddressTxBatch(a, done, height).seqNr
  {
    hide EndsAt, SeqNr;
  }

  lemma TxsOneRolledBack(a: AddressTxs, height: nat, done: set<nat>, id: nat, seqNr: map<nat, nat>, hn: Writes<(nat, nat), Entry>)
    requires id !in done && TxsRolledBack(a, done, height, seqNr, hn)
    ensures var n := SeqNr(a, id);
            if EndsAt(a, id, height)
            then TxsRolledBack(a, done + {id}, height, seqNr[id := Previous(n)], hn[(id, n) := None])
            else TxsRolledBack(a, done + {id}, height, seqNr, hn)
  {
    hide EndsAt, SeqNr, RollbackAddressTxBatch;
    SeqNrsOneRolledBack(a, height, done, id);
  }

  lemma AllRolledBack(a: AddressTxs, ids: set<nat>, height: nat, seqNr: map<nat, nat>, hn: Writes<(nat, nat), Entry>)
    requires TxsRolledBack(a, ids, height, seqNr, hn)
    ensures AddressTxBatch(seqNr, hn) == RollbackAddressTxBatch(a, ids, height)
  {
    hide EndsAt, SeqNr;
    var w := RollbackAddressTxBatch(a, ids, height);
    forall p: (nat, nat) ensures Lookup(hn, p) == Lookup(w.hn, p) {
      EntryDeleteAt(a, ids, height, p.0, p.1);
    }
    SameTable(hn, w.hn);
  }

  method RollbackTransactions(db: Tables, rw: RW, height: nat, ghost discarded: set<VersionKey>)
    returns (at: Writes<(nat, nat), Transaction>, hn: Writes<Id, (nat, nat)>, orders: set<Id>, scripts: set<Address>, assetScripts: set<AssetId>)
    requires rw.Discards(discarded)
    modifies rw
    ensures var txs := Bare(TransactionsAt(db.blocks.stored, height));
            && rw.Discards(discarded + UndoneByTransactions(db.addresses.addressId, txs))
            && orders == OrdersIn(txs) && scripts == ScriptsIn(txs) && assetScripts == AssetScriptsIn(txs)
    ensures at == RemovedTransactions(db.blocks.stored, height) && hn == RemovedIds(db.blocks.stored, height)
  {
    hide rw.Discards, TransactionsAt, UndoneByTransactions, UndoneByTransaction, OrdersIn, ScriptsIn, AssetScriptsIn, OrdersOf, ScriptsOf,
      AssetScriptsOf, TransactionsRemoved, RemovedIds, RemovedTransactions;
    var transactions := TransactionsAt(db.blocks.stored, height);
    ghost var txs := Bare(transactions);
    at, hn, orders, scripts, assetScripts := map[], map[], {}, {}, {};
    NoTransactions(db.addresses.addressId, txs[..0]);
    NothingRemoved(transactions[..0], height);
    assert discarded + UndoneByTransactions(db.addresses.addressId, txs[..0]) == discarded;
    var i := 0;
    while i < |transactions|
      invariant i <= |transactions|
      invariant rw.Discards(discarded + UndoneByTransactions(db.addresses.addressId, txs[..i]))
      invariant orders == OrdersIn(txs[..i]) && scripts == ScriptsIn(txs[..i]) && assetScripts == AssetScriptsIn(txs[..i])
      invariant TransactionsRemoved(transactions[..i], height, at, hn)
    {
      var (num, tx) := transactions[i];
      ghost var before := discarded + UndoneByTransactions(db.addresses.addressId, txs[..i]);
      DiscardAll(rw, UndoneByTransaction(db.addresses.addressId, tx), before);
      orders, scripts, assetScripts := orders + OrdersOf(tx), scripts + ScriptsOf(tx), assetScripts + AssetScriptsOf(tx);
      OneTransaction(db.addresses.addressId, txs[..i], tx);
      OneRemoved(transactions[..i], num, tx, height, at, hn);
      if !tx.payload.Genesis? {
        at := at[(height, num) := None];
        hn := hn[tx.id := None];
      }
      assert transactions[..i + 1] == transactions[..i] + [(num, tx)];
      assert txs[..i + 1] == txs[..i] + [tx];
      assert before + UndoneByTransaction(db.addresses.addressId, tx)
          == discarded + UndoneByTransactions(db.addresses.addressId, txs[..i + 1]);
      i := i + 1;
    }
    assert txs[..i] == txs && transactions[..i] == transactions;
    AllRemoved(db.blocks.stored, height, at, hn);
  }

  lemma NoTransactions(addressId: map<Address, nat>, none: seq<Transaction>)
    requires none == []
    ensures UndoneByTransactions(addressId, none) == {} && OrdersIn(none) == {} && ScriptsIn(none) == {} && AssetScriptsIn(none) == {}
  {
  }

  lemma NothingRemoved(none: seq<(nat, Transaction)>, height: nat)
    requires none == []
    ensures TransactionsRemoved(none, height, map[], map[])
  {
  }

  lemma {:induction false} OneTransaction(addressId: map<Address, nat>, txs: seq<Transaction>, tx: Transaction)
    ensures UndoneByTransactions(addressId, txs + [tx]) == UndoneByTransactions(addressId, txs) + UndoneByTransaction(addressId, tx)
    ensures OrdersIn(txs + [tx]) == OrdersIn(txs) + OrdersOf(tx)
    ensures ScriptsIn(txs + [tx]) == ScriptsIn(txs) + ScriptsOf(tx)
    ensures AssetScriptsIn(txs + [tx]) == AssetScriptsIn(txs) + AssetScriptsOf(tx)
  {
    hide UndoneByTransaction, OrdersOf, ScriptsOf, AssetScriptsOf;
    OneMoreUndoneBy(addressId, txs, tx);
    if txs != [] {
      OneTransaction(addressId, txs[1..], tx);
      assert (txs + [tx])[1..] == txs[1..] + [tx];
    }
  }

  lemma OneMoreUndoneBy(addressId: map<Address, nat>, txs: seq<Transaction>, tx: Transaction)
    ensures UndoneByTransactions(addressId, txs + [tx]) == UndoneByTransactions(addressId, txs) + UndoneByTransaction(addressId, tx)
  {
    hide UndoneByTransaction;
    var longer := txs + [tx];
    assert longer[|txs|] == tx;
    forall key ensures key in UndoneByTransactions(addressId, longer) <==>
                       key in UndoneByTransactions(addressId, txs) || key in UndoneByTransaction(addressId, tx)
    {
      if i :| 0 <= i < |txs| && key in UndoneByTransaction(addressId, txs[i]) {
        assert longer[i] == txs[i];
      }
    }
  }

  /** Some transaction of the list that is not a genesis transaction has the number. */
  ghost predicate RemovesNumber(txs: seq<(nat, Transaction)>, n: nat) {
    exists i :: 0 <= i < |txs| && txs[i].0 == n && !txs[i].1.payload.Genesis?
  }

  ghost predicate RemovesId(txs: seq<(nat, Transaction)>, id: Id) {
    exists i :: 0 <= i < |txs| && txs[i].1.id == id && !txs[i].1.payload.Genesis?
  }

  ghost predicate TransactionsRemoved(txs: seq<(nat, Transaction)>, height: nat, at: Writes<(nat, nat), Transaction>, hn: Writes<Id, (nat, nat)>) {
    && (forall p: (nat, nat) :: Lookup(at, p) == if p.0 == height && RemovesNumber(txs, p.1) then Some(None) else None)
    && (forall id :: Lookup(hn, id) == if RemovesId(txs, id) then Some(None) else None)
  }

  lemma RemovesMore(txs: seq<(nat, Transaction)>, num: nat, tx: Transaction, n: nat, id: Id)
    ensures RemovesNumber(txs + [(num, tx)], n) <==> RemovesNumber(txs, n) || (n == num && !tx.payload.Genesis?)
    ensures RemovesId(txs + [(num, tx)], id) <==> RemovesId(txs, id) || (id == tx.id && !tx.payload.Genesis?)
  {
    var longer := txs + [(num, tx)];
    assert longer[|txs|] == (num, tx);
    assert forall i :: 0 <= i < |txs| ==> longer[i] == txs[i];
  }

  lemma OneRemoved(txs: seq<(nat, Transaction)>, num: nat, tx: Transaction, height: nat, at: Writes<(nat, nat), Transaction>, hn: Writes<Id, (nat, nat)>)
    requires TransactionsRemoved(txs, height, at, hn)
    ensures if tx.payload.Genesis? then TransactionsRemoved(txs + [(num, tx)], height, at, hn)
            else TransactionsRemoved(txs + [(num, tx)], height, at[(height, num) := None], hn[tx.id := None])
  {
    hide RemovesNumber, RemovesId;
    var longer := txs + [(num, tx)];
    var at' := if tx.payload.Genesis? then at else at[(height, num) := None];
    var hn' := if tx.payload.Genesis? then hn else hn[tx.id := None];
    forall p: (nat, nat) ensures Lookup(at', p) == if p.0 == height && RemovesNumber(longer, p.1) then Some(None) else None {
      RemovesMore(txs, num, tx, p.1, tx.id);
    }
    forall id ensures Lookup(hn', id) == if RemovesId(longer, id) then Some(None) else None {
      RemovesMore(txs, num, tx, num, id);
    }
  }

  lemma RemovedNumber(t: BlockTables, height: nat, n: nat)
    ensures n in RemovedNumbers(t, height) <==> RemovesNumber(TransactionsAt(t, height), n)
  {
    var nums, txs := Ascending(NumbersAt(t, height)), TransactionsAt(t, height);
    if n in RemovedNumbers(t, height) {
      var i :| 0 <= i < |nums| && nums[i] == n;
      assert txs[i] == (n, t.transactionAt[(height, n)]);
    }
    if RemovesNumber(txs, n) {
      var i :| 0 <= i < |txs| && txs[i].0 == n && !txs[i].1.payload.Genesis?;
      assert nums[i] in nums;
    }
  }

  lemma RemovedId(t: BlockTables, height: nat, id: Id)
    ensures id in RemovedIds(t, height) <==> RemovesId(TransactionsAt(t, height), id)
  {
    hide RemovedNumbers;
    var nums, txs := Ascending(NumbersAt(t, height)), TransactionsAt(t, height);
    if id in RemovedIds(t, height) {
      var n: nat :| n in RemovedNumbers(t, height) && t.transactionAt[(height, n)].id == id;
      var i :| 0 <= i < |nums| && nums[i] == n;
      assert txs[i] == (n, t.transactionAt[(height, n)]);
    }
    if RemovesId(txs, id) {
      var i :| 0 <= i < |txs| && txs[i].1.id == id && !txs[i].1.payload.Genesis?;
      assert nums[i] in nums;
      assert nums[i] in RemovedNumbers(t, height);
    }
  }

  lemma AllRemoved(t: BlockTables, height: nat, at: Writes<(nat, nat), Transaction>, hn: Writes<Id, (nat, nat)>)
    requires TransactionsRemoved(TransactionsAt(t, height), height, at, hn)
    ensures at == RemovedTransactions(t, height) && hn == RemovedIds(t, height)
  {
    hide RemovesNumber, RemovesId, TransactionsAt, RemovedNumbers;
    forall p: (nat, nat) ensures Lookup(at, p) == Lookup(RemovedTransactions(t, height), p) {
      RemovedNumber(t, height, p.1);
    }
    SameTable(at, RemovedTransactions(t, height));
    forall id ensures Lookup(hn, id) == Lookup(RemovedIds(t, height), id) {
      RemovedId(t, height, id);
    }
    SameTable(hn, RemovedIds(t, height));
  }

  /** Fills and commits the batch that takes the block off again. */
  method RollbackBlock(db: Tables, height: nat) returns (r: Tables, discarded: Block, stale: Stale)
    requires height in db.blocks.stored.header && height > 0 && ChangedAreKnown(db, height)
    ensures r == RollbackTables(db, height)
    ensures discarded == Block(db.blocks.stored.header[height], Bare(TransactionsAt(db.blocks.stored, height)))
    ensures stale == StaleAfter(db, height)
  {
    hide TransactionsAt, UndoneForAddresses, UndoneByTransactions, RemovedTransactions, RemovedIds, BalancesToInvalidate,
      PortfoliosToInvalidate, CommitBlocks, CommitAddressTxs, Commit, HistoryDiscards, ValueDiscards, RollbackAddressTxBatch,
      OrdersIn, ScriptsIn, AssetScriptsIn;
    var rw := new RW(db.state, height);
    NothingDiscarded(rw);
    var header := db.blocks.stored.header[height];
    var addressTxs, balances, portfolios := RollbackAddresses(db, rw, height);
    ghost var keys := UndoneForAddresses(db.state, height, ChangedAddresses(db.state, height));
    var at, hn, orders, scripts, assetScripts := RollbackTransactions(db, rw, height, keys);
    ghost var txs := Bare(TransactionsAt(db.blocks.stored, height));
    rw.Discard(CarryFee, keys + UndoneByTransactions(db.addresses.addressId, txs));
    var stored := CommitBlocks(db.blocks.stored, BlockBatch(map[height := None], map[header.id := None], at, hn));
    r := Tables(db.blocks.(height := height - 1, stored := stored), db.addresses,
                CommitState(db.state, StateBatch(rw.history, rw.value, map[], map[], map[])),
                CommitAddressTxs(db.addressTxs, addressTxs), db.indexes);
    discarded := Block(header, Bare(TransactionsAt(db.blocks.stored, height)));
    stale := Stale(ChangedAddresses(db.state, height), balances, portfolios, orders, scripts, assetScripts);
  }

  lemma NothingDiscarded(rw: RW)
    requires rw.history == map[] && rw.value == map[]
    ensures rw.Discards({})
  {
  }
}
