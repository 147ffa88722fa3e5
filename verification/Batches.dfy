/**
 What one append and one single-block rollback write, as functions of the tables they read: readWrite reads a snapshot
 and commits all writes together.
 */
module Batches {
  import opened Common
  import opened Types
  import opened Histories
  import opened Versions
  import opened Enumerations
  import opened Tables

  datatype BlockBatch = BlockBatch(
    header: Writes<nat, Header>,
    heightOf: Writes<Id, nat>,
    transactionAt: Writes<(nat, nat), Transaction>,
    transactionHN: Writes<Id, (nat, nat)>)

  datatype StateBatch = StateBatch(
    history: HistoryTable,
    value: Writes<(VersionKey, nat), Value>,
    changedAddresses: map<nat, set<nat>>,
    assetList: map<nat, set<AssetId>>,
    changedDataKeys: map<(nat, nat), set<string>>)

  datatype AddressTxBatch = AddressTxBatch(
    seqNr: map<nat, nat>,
    hn: Writes<(nat, nat), (nat, seq<(nat, nat)>)>)

  function CommitBlocks(t: BlockTables, w: BlockBatch): BlockTables {
    BlockTables(Commit(t.header, w.header), Commit(t.heightOf, w.heightOf),
                Commit(t.transactionAt, w.transactionAt), Commit(t.transactionHN, w.transactionHN))
  }

  function CommitState(s: State, w: StateBatch): State {
    State(s.history + w.history, Commit(s.value, w.value), s.changedAddresses + w.changedAddresses,
          s.assetList + w.assetList, s.changedDataKeys + w.changedDataKeys)
  }

  function CommitAddressTxs(a: AddressTxs, w: AddressTxBatch): AddressTxs {
    AddressTxs(a.seqNr + w.seqNr, Commit(a.hn, w.hn))
  }

  // ---- append: blocks and addresses ----

  ghost predicate DistinctIds(txs: seq<Transaction>) {
    forall i, j :: 0 <= i < j < |txs| ==> txs[i].id != txs[j].id
  }

  function TransactionIds(txs: seq<Transaction>): set<Id> {
    set i | 0 <= i < |txs| :: txs[i].id
  }

  function IndexOf(txs: seq<Transaction>, id: Id): (r: nat)
    requires exists i :: 0 <= i < |txs| && txs[i].id == id
    ensures r < |txs| && txs[r].id == id
  {
    if txs[0].id == id then 0 else
    assert forall i :: 0 < i < |txs| ==> txs[1..][i - 1] == txs[i];
    1 + IndexOf(txs[1..], id)
  }

  function Numbered(txs: seq<Transaction>): (r: map<Id, nat>)
    requires DistinctIds(txs)
    ensures forall id :: id in r <==> id in TransactionIds(txs)
    ensures forall id :: id in r ==> r[id] < |txs| && txs[r[id]].id == id
  {
    map id | id in TransactionIds(txs) :: IndexOf(txs, id)
  }

  function TransactionPuts(txs: seq<Transaction>, height: nat): Writes<(nat, nat), Transaction> {
    map n: nat | n < |txs| :: (height, n) := Some(txs[n])
  }

  function TransactionIndexPuts(txs: seq<Transaction>, height: nat): Writes<Id, (nat, nat)>
    requires DistinctIds(txs)
  {
    map id | id in Numbered(txs) :: Some((height, Numbered(txs)[id]))
  }

  function AppendBlockBatch(block: Block, height: nat): BlockBatch
    requires DistinctIds(block.transactions)
  {
    BlockBatch(
      map[height := Some(block.header)],
      map[block.header.id := Some(height)],
      TransactionPuts(block.transactions, height),
      TransactionIndexPuts(block.transactions, height))
  }

  function AppendBlocks(b: Blocks, block: Block, height: nat, maxRollbackDepth: nat): Blocks
    requires height > 0 && DistinctIds(block.transactions)
  {
    Blocks(
      height,
      if b.safeRollbackHeight < height - maxRollbackDepth then height - maxRollbackDepth else b.safeRollbackHeight,
      b.score[height := ScoreAt(b, height - 1) + block.header.score],
      CommitBlocks(b.stored, AppendBlockBatch(block, height)))
  }

  ghost predicate Injective<K, V>(m: map<K, V>) {
    forall a, b :: a in m && b in m && m[a] == m[b] ==> a == b
  }

  function AddressWith(newAddresses: map<Address, nat>, id: nat): (r: Address)
    requires Injective(newAddresses) && id in newAddresses.Values
    ensures r in newAddresses && newAddresses[r] == id
  {
    var address :| address in newAddresses && newAddresses[address] == id;
    address
  }

  function Inverse(newAddresses: map<Address, nat>): map<nat, Address>
    requires Injective(newAddresses)
  {
    map id | id in newAddresses.Values :: AddressWith(newAddresses, id)
  }

  function AppendAddresses(a: Addresses, newAddresses: map<Address, nat>): Addresses
    requires Injective(newAddresses)
  {
    Addresses(a.lastAddressId + |newAddresses|, a.addressId + newAddresses, a.idToAddress + Inverse(newAddresses))
  }

  // ---- append: state ----

  function AssetListPuts(s: State, u: Update): map<nat, set<AssetId>> {
    map id | id in u.assetBalances :: AssetList(s, id) + u.assetBalances[id].Keys
  }

  function ChangedDataPuts(u: Update, height: nat): map<(nat, nat), set<string>> {
    map id | id in u.data :: (height, id) := u.data[id].Keys
  }

  /** The addresses recorded as changed by a block: those with transactions or a changed native balance. */
  function RecordedAddresses(u: Update): set<nat> {
    u.addressTransactions.Keys + u.earthsBalances.Keys
  }

  function AppendStateBatch(s: State, u: Update, height: nat, maxRollbackDepth: nat): StateBatch {
    StateBatch(
      HistoryWrites(s.history, ChangesOf(s, u), height, maxRollbackDepth),
      ValueWrites(s.history, ChangesOf(s, u), height, maxRollbackDepth),
      map[height := RecordedAddresses(u)],
      AssetListPuts(s, u),
      ChangedDataPuts(u, height))
  }

  // ---- append: transactions by address ----

  /** The source looks every listed id up among the transactions of the block, without a fallback. */
  ghost predicate ListedInBlock(u: Update) {
    forall id :: id in u.addressTransactions ==>
      forall i :: 0 <= i < |u.addressTransactions[id]| ==> u.addressTransactions[id][i] in TransactionIds(u.block.transactions)
  }

  /** The numbers of the listed transactions in their block. */
  function NumbersOf(txs: seq<Transaction>, ids: seq<Id>): (r: set<nat>)
    requires DistinctIds(txs)
    requires forall i :: 0 <= i < |ids| ==> ids[i] in TransactionIds(txs)
    ensures forall n :: n in r ==> n < |txs| && txs[n].id in ids
  {
    set i | 0 <= i < |ids| :: Numbered(txs)[ids[i]]
  }

  /** The given transactions as (type, number) pairs, in reverse order. */
  function ReversePairs(txs: seq<Transaction>, nums: seq<nat>): (r: seq<(nat, nat)>)
    requires forall i :: 0 <= i < |nums| ==> nums[i] < |txs|
    ensures |r| == |nums|
  {
    if nums == [] then [] else ReversePairs(txs, nums[1..]) + [(txs[nums[0]].typeId, nums[0])]
  }

  /** The (type, number) pairs of the transactions of one address, highest number first. */
  function TypeNums(txs: seq<Transaction>, ids: seq<Id>): (r: seq<(nat, nat)>)
    requires DistinctIds(txs)
    requires forall i :: 0 <= i < |ids| ==> ids[i] in TransactionIds(txs)
  {
    var nums := Ascending(NumbersOf(txs, ids));
    assert forall i :: 0 <= i < |nums| ==> nums[i] in nums;
    ReversePairs(txs, nums)
  }

  function SeqNrPuts(a: AddressTxs, u: Update): map<nat, nat> {
    map id | id in u.addressTransactions :: SeqNr(a, id) + 1
  }

  function HNPuts(a: AddressTxs, u: Update, height: nat): Writes<(nat, nat), (nat, seq<(nat, nat)>)>
    requires DistinctIds(u.block.transactions) && ListedInBlock(u)
  {
    map id | id in u.addressTransactions ::
      (id, SeqNr(a, id) + 1) := Some((height, TypeNums(u.block.transactions, u.addressTransactions[id])))
  }

  function AppendAddressTxBatch(a: AddressTxs, u: Update, height: nat): AddressTxBatch
    requires DistinctIds(u.block.transactions) && ListedInBlock(u)
  {
    AddressTxBatch(SeqNrPuts(a, u), HNPuts(a, u, height))
  }

  // ---- append: indexes ----

  function NewEarthsHolders(s: State, u: Update): set<nat> {
    set id | id in u.earthsBalances && HistoryOf(s.history, EarthsBalance(id)) == []
  }

  function NewAssets(s: State, u: Update): set<AssetId> {
    set id, asset | id in u.assetBalances && asset in u.assetBalances[id] && asset !in AssetList(s, id) :: asset
  }

  function NewAssetHolders(s: State, u: Update, asset: AssetId): set<nat> {
    set id | id in u.assetBalances && asset in u.assetBalances[id] && asset !in AssetList(s, id)
  }

  function NewDataKeys(s: State, u: Update, id: nat): set<string> {
    set key | key in DataKeysOf(u, id) && HistoryOf(s.history, Data(id, key)) == []
  }

  function NewDataAddresses(s: State, u: Update): set<nat> {
    set id | id in u.data && NewDataKeys(s, u, id) != {}
  }

  function AssetSeqNrPuts(x: Indexes, s: State, u: Update): map<AssetId, nat> {
    map asset | asset in NewAssets(s, u) :: AssetSeqNr(x, asset) + 1
  }

  function AssetHolderPuts(x: Indexes, s: State, u: Update): map<(AssetId, nat), seq<nat>> {
    map asset | asset in NewAssets(s, u) :: (asset, AssetSeqNr(x, asset) + 1) := Ascending(NewAssetHolders(s, u, asset))
  }

  function DataChunkCountPuts(x: Indexes, s: State, u: Update): map<nat, nat> {
    map id | id in NewDataAddresses(s, u) :: DataChunkCount(x, id) + 1
  }

  function DataChunkPuts(x: Indexes, s: State, u: Update): map<(nat, nat), set<string>> {
    map id | id in NewDataAddresses(s, u) :: (id, DataChunkCount(x, id)) := NewDataKeys(s, u, id)
  }

  function AppendIndexes(x: Indexes, s: State, u: Update): Indexes {
    var earths := NewEarthsHolders(s, u);
    Indexes(
      if earths == {} then x.earthsSeqNr else x.earthsSeqNr + 1,
      if earths == {} then x.addressesForEarths else x.addressesForEarths[x.earthsSeqNr + 1 := earths],
      x.assetSeqNr + AssetSeqNrPuts(x, s, u),
      x.addressesForAsset + AssetHolderPuts(x, s, u),
      x.dataChunkCount + DataChunkCountPuts(x, s, u),
      x.dataChunk + DataChunkPuts(x, s, u))
  }

  lemma AppendedAssetList(s: State, u: Update, after: State, id: nat)
    requires after.assetList == s.assetList + AssetListPuts(s, u)
    ensures AssetList(after, id) == AssetList(s, id) + AssetsOf(u, id)
  {
  }

  lemma HolderPutAt(x: Indexes, s: State, u: Update, asset: AssetId, n: nat)
    ensures Lookup(AssetHolderPuts(x, s, u), (asset, n)) ==
            if asset in NewAssets(s, u) && n == AssetSeqNr(x, asset) + 1 then Some(Ascending(NewAssetHolders(s, u, asset))) else None
  {
    hide NewAssets, NewAssetHolders, Ascending, AssetSeqNr;
  }

  lemma ChunkPutAt(x: Indexes, s: State, u: Update, id: nat, n: nat)
    ensures Lookup(DataChunkPuts(x, s, u), (id, n)) ==
            if id in NewDataAddresses(s, u) && n == DataChunkCount(x, id) then Some(NewDataKeys(s, u, id)) else None
  {
    hide NewDataAddresses, NewDataKeys, DataChunkCount;
  }

  // ---- append ----

  ghost predicate WellFormed(u: Update) {
    && DistinctIds(u.block.transactions)
    && Injective(u.newAddresses)
    && ListedInBlock(u)
  }

  function AppendTables(db: Tables, u: Update, height: nat, maxRollbackDepth: nat): Tables
    requires height > 0 && WellFormed(u)
  {
    Tables(
      AppendBlocks(db.blocks, u.block, height, maxRollbackDepth),
      AppendAddresses(db.addresses, u.newAddresses),
      CommitState(db.state, AppendStateBatch(db.state, u, height, maxRollbackDepth)),
      CommitAddressTxs(db.addressTxs, AppendAddressTxBatch(db.addressTxs, u, height)),
      AppendIndexes(db.indexes, db.state, u))
  }

  // ---- rollback of one block ----

  function NumbersAt(t: BlockTables, height: nat): (r: set<nat>)
    ensures forall n :: n in r <==> (height, n) in t.transactionAt
  {
    set p | p in t.transactionAt && p.0 == height :: p.1
  }

  function ReadAll(t: BlockTables, height: nat, nums: seq<nat>): (r: seq<(nat, Transaction)>)
    requires forall i :: 0 <= i < |nums| ==> (height, nums[i]) in t.transactionAt
    ensures |r| == |nums|
    ensures forall i :: 0 <= i < |r| ==> r[i] == (nums[i], t.transactionAt[(height, nums[i])])
  {
    if nums == [] then [] else [(nums[0], t.transactionAt[(height, nums[0])])] + ReadAll(t, height, nums[1..])
  }

  /** transactionsAtHeight: a scan of the keys under the height, in key order. */
  function TransactionsAt(t: BlockTables, height: nat): (r: seq<(nat, Transaction)>) {
    var nums := Ascending(NumbersAt(t, height));
    assert forall i :: 0 <= i < |nums| ==> nums[i] in nums;
    ReadAll(t, height, nums)
  }

  function Bare(txs: seq<(nat, Transaction)>): (r: seq<Transaction>)
    ensures |r| == |txs| && forall i :: 0 <= i < |r| ==> r[i] == txs[i].1
  {
    if txs == [] then [] else [txs[0].1] + Bare(txs[1..])
  }

  /** The versioned keys that the rollback branch of a transaction discards. */
  function UndoneByTransaction(addressId: map<Address, nat>, tx: Transaction): set<VersionKey> {
    match tx.payload
    case Issue => {AssetInfoOf(tx.id)}
    case Reissue(asset) => {AssetInfoOf(asset)}
    case Burn(asset) => {AssetInfoOf(asset)}
    case SponsorFee(asset) => {SponsorshipOf(asset)}
    case Lease => {LeaseStatus(tx.id)}
    case LeaseCancel(lease) => {LeaseStatus(lease)}
    case SetScript(sender) => if sender in addressId then {AddressScript(addressId[sender])} else {}
    case SetAssetScript(asset) => {AssetScript(asset)}
    case Exchange(buy, sell) => {FilledVolumeAndFee(buy), FilledVolumeAndFee(sell)}
    case _ => {}
  }

  function UndoneByTransactions(addressId: map<Address, nat>, txs: seq<Transaction>): (r: set<VersionKey>)
    ensures forall key :: key in r <==> exists i :: 0 <= i < |txs| && key in UndoneByTransaction(addressId, txs[i])
  {
    set i, key | 0 <= i < |txs| && key in UndoneByTransaction(addressId, txs[i]) :: key
  }

  /** The versioned keys discarded for one changed address. */
  function UndoneForAddress(id: nat, assets: set<AssetId>, dataKeys: set<string>): (r: set<VersionKey>)
    ensures forall key :: key in r <==> match key
              case AssetBalance(i, asset) => i == id && asset in assets
              case Data(i, k) => i == id && k in dataKeys
              case EarthsBalance(i) => i == id
              case LeaseBalanceOf(i) => i == id
              case _ => false
  {
    (set asset | asset in assets :: AssetBalance(id, asset))
    + (set key | key in dataKeys :: Data(id, key))
    + {EarthsBalance(id), LeaseBalanceOf(id)}
  }

  function UndoneForAddresses(s: State, height: nat, ids: set<nat>): (r: set<VersionKey>)
    ensures forall key :: key in r <==>
              exists id :: id in ids && key in UndoneForAddress(id, AssetList(s, id), ChangedDataKeys(s, height, id))
  {
    set id, key | id in ids && key in UndoneForAddress(id, AssetList(s, id), ChangedDataKeys(s, height, id)) :: key
  }

  function RollbackKeys(db: Tables, height: nat): set<VersionKey> {
    UndoneForAddresses(db.state, height, ChangedAddresses(db.state, height))
    + UndoneByTransactions(db.addresses.addressId, Bare(TransactionsAt(db.blocks.stored, height)))
    + {CarryFee}
  }

  /** Genesis transactions are left in place. */
  function RemovedNumbers(t: BlockTables, height: nat): (r: set<nat>)
    ensures forall n :: n in r <==> (height, n) in t.transactionAt && !t.transactionAt[(height, n)].payload.Genesis?
  {
    set n | n in NumbersAt(t, height) && !t.transactionAt[(height, n)].payload.Genesis?
  }

  function RemovedTransactions(t: BlockTables, height: nat): Writes<(nat, nat), Transaction> {
    map n | n in RemovedNumbers(t, height) :: (height, n) := None
  }

  function RemovedIdSet(t: BlockTables, height: nat): set<Id> {
    set n | n in RemovedNumbers(t, height) :: t.transactionAt[(height, n)].id
  }

  function RemovedIds(t: BlockTables, height: nat): Writes<Id, (nat, nat)> {
    map id | id in RemovedIdSet(t, height) :: None
  }

  function RollbackBlockBatch(t: BlockTables, height: nat): BlockBatch
    requires height in t.header
  {
    BlockBatch(
      map[height := None],
      map[t.header[height].id := None],
      RemovedTransactions(t, height),
      RemovedIds(t, height))
  }

  function RollbackBlocks(b: Blocks, height: nat): Blocks
    requires height in b.stored.header && height > 0
  {
    Blocks(height - 1, b.safeRollbackHeight, b.score, CommitBlocks(b.stored, RollbackBlockBatch(b.stored, height)))
  }

  function RollbackStateBatch(s: State, keys: set<VersionKey>, height: nat): StateBatch {
    StateBatch(HistoryDiscards(s.history, keys, height), ValueDiscards(keys, height), map[], map[], map[])
  }

  /** The newest entry of the address's transaction list belongs to the height. */
  predicate EndsAt(a: AddressTxs, id: nat, height: nat) {
    (id, SeqNr(a, id)) in a.hn && a.hn[(id, SeqNr(a, id))].0 == height
  }

  function Previous(n: nat): nat { if n > 0 then n - 1 else 0 }

  function RollbackAddressTxBatch(a: AddressTxs, ids: set<nat>, height: nat): AddressTxBatch {
    AddressTxBatch(
      map id | id in ids && EndsAt(a, id, height) :: Previous(SeqNr(a, id)),
      map id | id in ids && EndsAt(a, id, height) :: (id, SeqNr(a, id)) := None)
  }

  function RollbackTables(db: Tables, height: nat): Tables
    requires height in db.blocks.stored.header && height > 0
  {
    Tables(
      RollbackBlocks(db.blocks, height),
      db.addresses,
      CommitState(db.state, RollbackStateBatch(db.state, RollbackKeys(db, height), height)),
      CommitAddressTxs(db.addressTxs, RollbackAddressTxBatch(db.addressTxs, ChangedAddresses(db.state, height), height)),
      db.indexes)
  }
}
