/** doAppend: the loops that fill the batch of one block, each against the function that says what the batch holds. */
module Appending {
  import opened Common
  import opened Types
  import opened Histories
  import opened Versions
  import opened Enumerations
  import opened Tables
  import opened Batches
  import opened ReadWrite
  import opened ChainAddressTxs

  // ---- versioned values ----

  ghost function Part(s: State, u: Update, keys: set<VersionKey>): Changes
    requires keys <= ChangedKeys(u)
  {
    map key | key in keys :: (ChangedKeysAre(u, key); ChangedValue(s, u, key))
  }

  /** Writes the changes of all families: for each key the value, the history, and last of all what expires. */
  method PutState(rw: RW, u: Update, maxRollbackDepth: nat)
    requires rw.history == map[] && rw.value == map[]
    modifies rw
    ensures rw.history == HistoryWrites(rw.snapshot.history, ChangesOf(rw.snapshot, u), rw.height, maxRollbackDepth)
    ensures rw.value == ValueWrites(rw.snapshot.history, ChangesOf(rw.snapshot, u), rw.height, maxRollbackDepth)
  {
    hide HistoryWrites, ValuePuts, ExpiredKeys, ChangesOf, Part, ChangedKeys, ChangedValue, rw.Appends;
    NothingWritten(rw, u, maxRollbackDepth);
    var todo, expired: ExpiredValues := ChangedKeys(u), {};
    assert ChangedKeys(u) - todo == {};
    while todo != {}
      invariant todo <= ChangedKeys(u)
      invariant rw.Appends(Part(rw.snapshot, u, ChangedKeys(u) - todo), expired, maxRollbackDepth)
    {
      ghost var written := ChangedKeys(u) - todo;
      var key :| key in todo;
      ChangedKeysAre(u, key);
      var v := ChangedValue(rw.snapshot, u, key);
      PartKeys(rw.snapshot, u, written, key);
      expired := rw.Change(key, v, maxRollbackDepth, expired, Part(rw.snapshot, u, written));
      todo := todo - {key};
      assert ChangedKeys(u) - todo == written + {key};
    }
    assert ChangedKeys(u) - todo == ChangedKeys(u);
    AllWritten(rw.snapshot, u);
    rw.AppendsIs(ChangesOf(rw.snapshot, u), expired, maxRollbackDepth);
    rw.DeleteExpired(expired);
  }

  lemma PartKeys(s: State, u: Update, keys: set<VersionKey>, key: VersionKey)
    requires keys <= ChangedKeys(u) && key in ChangedKeys(u)
    ensures Part(s, u, keys).Keys == keys
    ensures IsChanged(u, key) && Part(s, u, keys + {key}) == Part(s, u, keys)[key := ChangedValue(s, u, key)]
  {
    hide ChangedKeys, ChangedValue;
    ChangedKeysAre(u, key);
  }

  lemma NothingWritten(rw: RW, u: Update, maxRollbackDepth: nat)
    requires rw.history == map[] && rw.value == map[]
    ensures rw.Appends(Part(rw.snapshot, u, {}), {}, maxRollbackDepth)
  {
  }

  lemma AllWritten(s: State, u: Update)
    ensures Part(s, u, ChangedKeys(u)) == ChangesOf(s, u)
  {
    hide ChangedKeys;
  }

  // ---- blocks and addresses ----

  method PutTransactions(block: Block, height: nat) returns (w: BlockBatch)
    requires DistinctIds(block.transactions)
    ensures w == AppendBlockBatch(block, height)
  {
    var txs := block.transactions;
    var at: Writes<(nat, nat), Transaction> := map[];
    var hn: Writes<Id, (nat, nat)> := map[];
    var num := 0;
    while num < |txs|
      invariant num <= |txs|
      invariant at == TransactionPuts(txs[..num], height)
      invariant DistinctIds(txs[..num]) && hn == TransactionIndexPuts(txs[..num], height)
    {
      OneMoreTransaction(txs, num, height);
      at := at[(height, num) := Some(txs[num])];
      hn := hn[txs[num].id := Some((height, num))];
      num := num + 1;
    }
    assert txs[..num] == txs;
    w := BlockBatch(map[height := Some(block.header)], map[block.header.id := Some(height)], at, hn);
  }

  lemma OneMoreTransaction(txs: seq<Transaction>, num: nat, height: nat)
    requires DistinctIds(txs) && num < |txs|
    ensures DistinctIds(txs[..num]) && DistinctIds(txs[..num + 1])
    ensures TransactionPuts(txs[..num + 1], height) == TransactionPuts(txs[..num], height)[(height, num) := Some(txs[num])]
    ensures TransactionIndexPuts(txs[..num + 1], height) == TransactionIndexPuts(txs[..num], height)[txs[num].id := Some((height, num))]
  {
    assert txs[..num + 1] == txs[..num] + [txs[num]];
    OneMoreIndexed(txs[..num], txs[num], height);
  }

  lemma OneMoreNumbered(txs: seq<Transaction>, tx: Transaction, id: Id)
    requires DistinctIds(txs + [tx]) && DistinctIds(txs)
    ensures Lookup(Numbered(txs + [tx]), id) == if id == tx.id then Some(|txs|) else Lookup(Numbered(txs), id)
  {
    var longer := txs + [tx];
    if id == tx.id {
      assert longer[|txs|].id == id;
    }
    if id in Numbered(txs) {
      assert longer[Numbered(txs)[id]].id == id;
    }
  }

  lemma OneMoreIndexed(txs: seq<Transaction>, tx: Transaction, height: nat)
    requires DistinctIds(txs + [tx]) && DistinctIds(txs)
    ensures TransactionIndexPuts(txs + [tx], height) == TransactionIndexPuts(txs, height)[tx.id := Some((height, |txs|))]
  {
    hide DistinctIds, Numbered, TransactionIds;
    var left, right := TransactionIndexPuts(txs + [tx], height), TransactionIndexPuts(txs, height)[tx.id := Some((height, |txs|))];
    forall id ensures Lookup(left, id) == Lookup(right, id) {
      OneMoreNumbered(txs, tx, id);
    }
    SameTable(left, right);
  }

  method PutAddresses(a: Addresses, newAddresses: map<Address, nat>) returns (r: Addresses)
    requires Injective(newAddresses)
    ensures r == AppendAddresses(a, newAddresses)
  {
    hide PartlyPut, Injective;
    var todo := newAddresses.Keys;
    var addressId, idToAddress := a.addressId, a.idToAddress;
    NonePut(a, newAddresses);
    while todo != {}
      invariant todo <= newAddresses.Keys
      invariant PartlyPut(a, newAddresses, todo, addressId, idToAddress)
    {
      var address :| address in todo;
      var id := newAddresses[address];
      OnePut(a, newAddresses, todo, addressId, idToAddress, address);
      addressId := addressId[address := id];
      idToAddress := idToAddress[id := address];
      todo := todo - {address};
    }
    AllPut(a, newAddresses, addressId, idToAddress);
    r := Addresses(a.lastAddressId + |newAddresses|, addressId, idToAddress);
  }

  ghost predicate PartlyPut(a: Addresses, newAddresses: map<Address, nat>, todo: set<Address>,
                            addressId: map<Address, nat>, idToAddress: map<nat, Address>) {
    && Injective(newAddresses - todo)
    && addressId == a.addressId + (newAddresses - todo)
    && idToAddress == a.idToAddress + Inverse(newAddresses - todo)
  }

  lemma NonePut(a: Addresses, newAddresses: map<Address, nat>)
    ensures PartlyPut(a, newAddresses, newAddresses.Keys, a.addressId, a.idToAddress)
  {
    assert newAddresses - newAddresses.Keys == map[];
  }

  lemma AllPut(a: Addresses, newAddresses: map<Address, nat>, addressId: map<Address, nat>, idToAddress: map<nat, Address>)
    requires Injective(newAddresses) && PartlyPut(a, newAddresses, {}, addressId, idToAddress)
    ensures addressId == a.addressId + newAddresses && idToAddress == a.idToAddress + Inverse(newAddresses)
  {
    assert newAddresses - {} == newAddresses;
  }

  lemma OnePut(a: Addresses, newAddresses: map<Address, nat>, todo: set<Address>,
               addressId: map<Address, nat>, idToAddress: map<nat, Address>, address: Address)
    requires Injective(newAddresses) && PartlyPut(a, newAddresses, todo, addressId, idToAddress)
    requires address in todo && todo <= newAddresses.Keys
    ensures var id := newAddresses[address];
            PartlyPut(a, newAddresses, todo - {address}, addressId[address := id], idToAddress[id := address])
  {
    hide Injective, Inverse;
    var done, id := newAddresses - todo, newAddresses[address];
    SubInjective(newAddresses, todo - {address});
    assert newAddresses - (todo - {address}) == done[address := id];
    InverseMore(done, address, id);
    OneMore(a.addressId, done, address, id);
    OneMore(a.idToAddress, Inverse(done), id, address);
  }

  lemma OneMore<K, V>(m: map<K, V>, more: map<K, V>, k: K, v: V)
    ensures m + more[k := v] == (m + more)[k := v]
  {
  }

  lemma SubInjective(m: map<Address, nat>, keys: set<Address>)
    requires Injective(m)
    ensures Injective(m - keys)
  {
  }

  lemma InverseMore(m: map<Address, nat>, address: Address, id: nat)
    requires Injective(m) && Injective(m[address := id]) && address !in m
    ensures Inverse(m[address := id]) == Inverse(m)[id := address]
  {
    var more := m[address := id];
    forall i ensures Lookup(Inverse(more), i) == Lookup(Inverse(m)[id := address], i) {
      if i in more.Values {
        var a := AddressWith(more, i);
        assert a == address || m[a] == i;
      }
      if i in m.Values {
        assert more[AddressWith(m, i)] == i;
      }
      assert more[address] == id;
    }
    SameTable(Inverse(more), Inverse(m)[id := address]);
  }

  // ---- transactions by address ----

  method PutAddressTransactions(a: AddressTxs, u: Update, height: nat) returns (w: AddressTxBatch)
    requires Listed(u)
    ensures w == AppendAddressTxBatch(a, u, height)
  {
    hide DistinctIds, TypeNums, SeqNr, HNPuts, EntryOf;
    var todo := u.addressTransactions.Keys;
    var seqNr: map<nat, nat> := map[];
    var hn: Writes<(nat, nat), Entry> := map[];
    while todo != {}
      invariant todo <= u.addressTransactions.Keys
      invariant seqNr == map id | id in u.addressTransactions && id !in todo :: SeqNr(a, id) + 1
      invariant forall p: (nat, nat) :: Lookup(hn, p) ==
                  if p.0 in u.addressTransactions && p.0 !in todo && p.1 == SeqNr(a, p.0) + 1 then Some(Some(EntryOf(u, p.0, height))) else None
    {
      var id :| id in todo;
      var nextSeqNr := SeqNr(a, id) + 1;
      hn := hn[(id, nextSeqNr) := Some((height, TypeNums(u.block.transactions, u.addressTransactions[id])))];
      seqNr := seqNr[id := nextSeqNr];
      todo := todo - {id};
      EntryIs(u, id, height);
    }
    forall p: (nat, nat) ensures Lookup(hn, p) == Lookup(HNPuts(a, u, height), p) {
      HNPutAt(a, u, height, p.0, p.1);
    }
    SameTable(hn, HNPuts(a, u, height));
    w := AddressTxBatch(seqNr, hn);
  }

  lemma EntryIs(u: Update, id: nat, height: nat)
    requires Listed(u) && id in u.addressTransactions
    ensures EntryOf(u, id, height) == (height, TypeNums(u.block.transactions, u.addressTransactions[id]))
  {
  }

  // ---- indexes ----

  method AddHolder(holders: map<AssetId, set<nat>>, newAssets: set<AssetId>, id: nat) returns (r: map<AssetId, set<nat>>)
    ensures r.Keys == holders.Keys + newAssets
    ensures forall asset :: asset in r ==> r[asset] == HoldersOf(holders, asset) + if asset in newAssets then {id} else {}
  {
    r := holders;
    var assets := newAssets;
    while assets != {}
      invariant assets <= newAssets
      invariant r.Keys == holders.Keys + (newAssets - assets)
      invariant forall asset :: asset in r ==> r[asset] == HoldersOf(holders, asset) + if asset in newAssets - assets then {id} else {}
    {
      var asset :| asset in assets;
      r := r[asset := HoldersOf(r, asset) + {id}];
      assets := assets - {asset};
    }
  }

  function HoldersOf(holders: map<AssetId, set<nat>>, asset: AssetId): set<nat> {
    if asset in holders then holders[asset] else {}
  }

  /** The addresses that did not hold the asset before, by asset. */
  method NewHoldersByAsset(s: State, u: Update) returns (r: map<AssetId, set<nat>>)
    ensures r == map asset | asset in NewAssets(s, u) :: NewAssetHolders(s, u, asset)
  {
    hide NewAmong, IsNewAsset, NewAssets, NewAssetHolders;
    r := map[];
    var todo := u.assetBalances.Keys;
    NobodyYet(s, u, u.assetBalances.Keys - todo);
    while todo != {}
      invariant todo <= u.assetBalances.Keys
      invariant forall asset :: HoldersOf(r, asset) == NewAmong(s, u, asset, u.assetBalances.Keys - todo)
      invariant forall asset :: asset in r ==> r[asset] != {}
    {
      var id :| id in todo;
      ghost var done := u.assetBalances.Keys - todo;
      var newAssets := u.assetBalances[id].Keys - AssetList(s, id);
      r := AddHolder(r, newAssets, id);
      todo := todo - {id};
      assert u.assetBalances.Keys - todo == done + {id};
      forall asset ensures HoldersOf(r, asset) == NewAmong(s, u, asset, done + {id}) {
        OneMoreAmong(s, u, asset, done, id);
      }
    }
    assert u.assetBalances.Keys - todo == u.assetBalances.Keys;
    forall asset ensures asset in r <==> asset in NewAssets(s, u)
                 ensures asset in r ==> r[asset] == NewAssetHolders(s, u, asset)
    {
      AllAmong(s, u, asset);
    }
  }

  lemma NobodyYet(s: State, u: Update, nobody: set<nat>)
    requires nobody == {}
    ensures forall asset :: NewAmong(s, u, asset, nobody) == {}
  {
  }

  lemma OneMoreAmong(s: State, u: Update, asset: AssetId, done: set<nat>, id: nat)
    requires id in u.assetBalances
    ensures NewAmong(s, u, asset, done + {id}) ==
            NewAmong(s, u, asset, done) + if asset in u.assetBalances[id].Keys - AssetList(s, id) then {id} else {}
  {
  }

  lemma AllAmong(s: State, u: Update, asset: AssetId)
    ensures NewAmong(s, u, asset, u.assetBalances.Keys) == NewAssetHolders(s, u, asset)
    ensures asset in NewAssets(s, u) <==> NewAssetHolders(s, u, asset) != {}
  {
    if asset in NewAssets(s, u) {
      var id :| id in u.assetBalances && asset in u.assetBalances[id] && asset !in AssetList(s, id);
      assert id in NewAssetHolders(s, u, asset);
    }
    if id :| id in NewAssetHolders(s, u, asset) {
      assert asset in NewAssets(s, u);
    }
  }

  predicate IsNewAsset(s: State, u: Update, id: nat, asset: AssetId) {
    id in u.assetBalances && asset in u.assetBalances[id] && asset !in AssetList(s, id)
  }

  ghost function NewAmong(s: State, u: Update, asset: AssetId, ids: set<nat>): set<nat> {
    set id | id in ids && IsNewAsset(s, u, id, asset)
  }

  method PutAssetHolders(x: Indexes, s: State, u: Update) returns (seqNr: map<AssetId, nat>, holders: map<(AssetId, nat), seq<nat>>)
    ensures seqNr == AssetSeqNrPuts(x, s, u) && holders == AssetHolderPuts(x, s, u)
  {
    hide NewAssets, NewAssetHolders, Ascending, AssetSeqNr, AssetHolderPuts;
    var newHolders := NewHoldersByAsset(s, u);
    seqNr, holders := map[], map[];
    var todo := newHolders.Keys;
    while todo != {}
      invariant todo <= newHolders.Keys
      invariant seqNr == map asset | asset in NewAssets(s, u) && asset !in todo :: AssetSeqNr(x, asset) + 1
      invariant forall p: (AssetId, nat) :: Lookup(holders, p) ==
                  if p.0 in NewAssets(s, u) && p.0 !in todo && p.1 == AssetSeqNr(x, p.0) + 1
                  then Some(Ascending(NewAssetHolders(s, u, p.0))) else None
    {
      var asset :| asset in todo;
      var nextSeqNr := AssetSeqNr(x, asset) + 1;
      seqNr := seqNr[asset := nextSeqNr];
      holders := holders[(asset, nextSeqNr) := Ascending(newHolders[asset])];
      todo := todo - {asset};
    }
    forall p: (AssetId, nat) ensures Lookup(holders, p) == Lookup(AssetHolderPuts(x, s, u), p) {
      HolderPutAt(x, s, u, p.0, p.1);
    }
    SameTable(holders, AssetHolderPuts(x, s, u));
  }

  lemma NewDataAddress(s: State, u: Update, id: nat)
    ensures id in NewDataAddresses(s, u) <==> id in u.data && NewDataKeys(s, u, id) != {}
  {
    hide NewDataKeys;
  }

  ghost predicate InChunk(chunks: map<(nat, nat), set<string>>, id: nat, n: nat, key: string) {
    (id, n) in chunks && key in chunks[(id, n)]
  }

  /** The update sets a data key that has no history yet. */
  ghost predicate BringsKey(s: State, u: Update, id: nat, key: string) {
    id in u.data && key in u.data[id] && HistoryOf(s.history, Data(id, key)) == []
  }

  /** The chunks hold exactly the keys without a history, and none is empty. */
  lemma ChunksHoldNewKeys(x: Indexes, s: State, u: Update)
    ensures forall id: nat, n: nat, key: string :: InChunk(DataChunkPuts(x, s, u), id, n, key) <==> n == DataChunkCount(x, id) && BringsKey(s, u, id, key)
    ensures forall p :: p in DataChunkPuts(x, s, u) ==> DataChunkPuts(x, s, u)[p] != {}
  {
    hide DataChunkCount, HistoryOf;
    forall id: nat, n: nat, key: string
      ensures InChunk(DataChunkPuts(x, s, u), id, n, key) <==> n == DataChunkCount(x, id) && BringsKey(s, u, id, key)
    {
      ChunkPutAt(x, s, u, id, n);
      if BringsKey(s, u, id, key) {
        assert key in NewDataKeys(s, u, id);
      }
    }
  }

  method PutDataChunks(x: Indexes, s: State, u: Update) returns (counts: map<nat, nat>, chunks: map<(nat, nat), set<string>>)
    ensures counts == DataChunkCountPuts(x, s, u) && chunks == DataChunkPuts(x, s, u)
    ensures forall id: nat, n: nat, key: string :: InChunk(chunks, id, n, key) <==> n == DataChunkCount(x, id) && BringsKey(s, u, id, key)
    ensures forall p :: p in chunks ==> chunks[p] != {}
  {
    ChunksHoldNewKeys(x, s, u);
    hide NewDataKeys, NewDataAddresses, DataChunkCount, DataChunkPuts, InChunk, BringsKey;
    counts, chunks := map[], map[];
    var todo := u.data.Keys;
    forall id ensures id in NewDataAddresses(s, u) ==> id in todo {
      NewDataAddress(s, u, id);
    }
    while todo != {}
      invariant todo <= u.data.Keys
      invariant counts == map id | id in NewDataAddresses(s, u) && id !in todo :: DataChunkCount(x, id) + 1
      invariant forall p: (nat, nat) :: Lookup(chunks, p) ==
                  if p.0 in NewDataAddresses(s, u) && p.0 !in todo && p.1 == DataChunkCount(x, p.0)
                  then Some(NewDataKeys(s, u, p.0)) else None
    {
      var id :| id in todo;
      var newKeys := NewDataKeys(s, u, id);
      NewDataAddress(s, u, id);
      if newKeys != {} {
        var chunkCount := DataChunkCount(x, id);
        chunks := chunks[(id, chunkCount) := newKeys];
        counts := counts[id := chunkCount + 1];
      }
      todo := todo - {id};
    }
    forall p: (nat, nat) ensures Lookup(chunks, p) == Lookup(DataChunkPuts(x, s, u), p) {
      ChunkPutAt(x, s, u, p.0, p.1);
    }
    SameTable(chunks, DataChunkPuts(x, s, u));
  }

  method PutIndexes(x: Indexes, s: State, u: Update) returns (r: Indexes)
    ensures r == AppendIndexes(x, s, u)
  {
    hide AssetSeqNrPuts, AssetHolderPuts, DataChunkCountPuts, DataChunkPuts;
    var newAddressesForEarths: set<nat> := {};
    var todo := u.earthsBalances.Keys;
    while todo != {}
      invariant todo <= u.earthsBalances.Keys
      invariant newAddressesForEarths == set id | id in NewEarthsHolders(s, u) && id !in todo
    {
      var id :| id in todo;
      if HistoryOf(s.history, EarthsBalance(id)) == [] {
        newAddressesForEarths := newAddressesForEarths + {id};
      }
      todo := todo - {id};
    }
    assert newAddressesForEarths == NewEarthsHolders(s, u);
    var assetSeqNr, holders := PutAssetHolders(x, s, u);
    var counts, chunks := PutDataChunks(x, s, u);
    r := x.(assetSeqNr := x.assetSeqNr + assetSeqNr, addressesForAsset := x.addressesForAsset + holders,
            dataChunkCount := x.dataChunkCount + counts, dataChunk := x.dataChunk + chunks);
    if newAddressesForEarths != {} {
      var newSeqNr := x.earthsSeqNr + 1;
      r := r.(earthsSeqNr := newSeqNr, addressesForEarths := x.addressesForEarths[newSeqNr := newAddressesForEarths]);
    }
  }

  method PutAssetLists(s: State, u: Update) returns (r: map<nat, set<AssetId>>)
    ensures r == AssetListPuts(s, u)
  {
    r := map[];
    var todo := u.assetBalances.Keys;
    while todo != {}
      invariant todo <= u.assetBalances.Keys
      invariant r == map id | id in u.assetBalances && id !in todo :: AssetList(s, id) + u.assetBalances[id].Keys
    {
      var id :| id in todo;
      r := r[id := AssetList(s, id) + u.assetBalances[id].Keys];
      todo := todo - {id};
    }
  }

  method PutChangedDataKeys(u: Update, height: nat) returns (r: map<(nat, nat), set<string>>)
    ensures r == ChangedDataPuts(u, height)
  {
    r := map[];
    var todo := u.data.Keys;
    while todo != {}
      invariant todo <= u.data.Keys
      invariant r == map id | id in u.data && id !in todo :: (height, id) := u.data[id].Keys
    {
      var id :| id in todo;
      r := r[(height, id) := u.data[id].Keys];
      todo := todo - {id};
    }
  }

  method PutBlocks(b: Blocks, block: Block, height: nat, maxRollbackDepth: nat) returns (r: Blocks)
    requires height > 0 && DistinctIds(block.transactions)
    ensures r == AppendBlocks(b, block, height, maxRollbackDepth)
  {
    hide DistinctIds, AppendBlockBatch, CommitBlocks;
    var safe := b.safeRollbackHeight;
    if safe < height - maxRollbackDepth {
      safe := height - maxRollbackDepth;
    }
    var batch := PutTransactions(block, height);
    r := Blocks(height, safe, b.score[height := ScoreAt(b, height - 1) + block.header.score], CommitBlocks(b.stored, batch));
  }

  method PutStateTables(s: State, u: Update, height: nat, maxRollbackDepth: nat) returns (r: State)
    ensures r == CommitState(s, AppendStateBatch(s, u, height, maxRollbackDepth))
  {
    hide CommitState, HistoryWrites, ValueWrites, ChangesOf, AssetListPuts, ChangedDataPuts;
    var rw := new RW(s, height);
    PutState(rw, u, maxRollbackDepth);
    var assetLists := PutAssetLists(s, u);
    var dataKeys := PutChangedDataKeys(u, height);
    var changedAddresses := u.addressTransactions.Keys + u.earthsBalances.Keys;
    r := CommitState(s, StateBatch(rw.history, rw.value, map[height := changedAddresses], assetLists, dataKeys));
  }

  /** Fills and commits the batch of a block. */
  method DoAppend(db: Tables, u: Update, height: nat, maxRollbackDepth: nat) returns (r: Tables)
    requires height > 0 && WellFormed(u)
    ensures r == AppendTables(db, u, height, maxRollbackDepth)
  {
    hide DistinctIds, Injective, ListedInBlock, AppendBlocks, AppendAddresses, CommitState, AppendStateBatch, CommitAddressTxs,
      AppendAddressTxBatch, AppendIndexes;
    var blocks := PutBlocks(db.blocks, u.block, height, maxRollbackDepth);
    var addresses := PutAddresses(db.addresses, u.newAddresses);
    var state := PutStateTables(db.state, u, height, maxRollbackDepth);
    var indexes := PutIndexes(db.indexes, db.state, u);
    var addressTxs := PutAddressTransactions(db.addressTxs, u, height);
    r := Tables(blocks, addresses, state, CommitAddressTxs(db.addressTxs, addressTxs), indexes);
  }
}
