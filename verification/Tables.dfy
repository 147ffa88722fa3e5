/**
 The database of the node: one table for each key prefix of Keys, grouped by what they are about,
 and the arguments of doAppend.
 */
module Tables {
  import opened Common
  import opened Types
  import opened Histories
  import opened Versions

  /** Block and transaction storage. */
  datatype BlockTables = BlockTables(
    header: map<nat, Header>,
    heightOf: map<Id, nat>,
    transactionAt: map<(nat, nat), Transaction>,
    transactionHN: map<Id, (nat, nat)>)

  datatype Blocks = Blocks(
    height: nat,
    safeRollbackHeight: nat,
    score: map<nat, nat>,
    stored: BlockTables)

  datatype Addresses = Addresses(
    lastAddressId: nat,
    addressId: map<Address, nat>,
    idToAddress: map<nat, Address>)

  /** All values with a height history, and what a rollback reads to find the values a block changed. */
  datatype State = State(
    history: HistoryTable,
    value: ValueTable,
    changedAddresses: map<nat, set<nat>>,
    assetList: map<nat, set<AssetId>>,
    changedDataKeys: map<(nat, nat), set<string>>)

  /** For each address id: how many blocks touched it, and the height and transactions of each of them. */
  datatype AddressTxs = AddressTxs(
    seqNr: map<nat, nat>,
    hn: map<(nat, nat), (nat, seq<(nat, nat)>)>)

  /** The indexes behind the enumerations. Sets stand for sequences whose order is never used. */
  datatype Indexes = Indexes(
    earthsSeqNr: nat,
    addressesForEarths: map<nat, set<nat>>,
    assetSeqNr: map<AssetId, nat>,
    addressesForAsset: map<(AssetId, nat), seq<nat>>,
    dataChunkCount: map<nat, nat>,
    dataChunk: map<(nat, nat), set<string>>)

  datatype Tables = Tables(blocks: Blocks, addresses: Addresses, state: State, addressTxs: AddressTxs, indexes: Indexes)

  /** What doAppend is called with. A sponsorship of None stands for SponsorshipNoInfo. */
  datatype Update = Update(
    block: Block,
    carry: int,
    newAddresses: map<Address, nat>,
    earthsBalances: map<nat, int>,
    assetBalances: map<nat, map<AssetId, int>>,
    leaseBalances: map<nat, LeaseBalance>,
    addressTransactions: map<nat, seq<Id>>,
    leaseStates: map<Id, bool>,
    reissuedAssets: map<AssetId, AssetInfo>,
    filledQuantity: map<Id, VolumeAndFee>,
    scripts: map<nat, Option<Script>>,
    assetScripts: map<AssetId, Option<Script>>,
    data: map<nat, map<string, DataEntry>>,
    sponsorship: map<AssetId, Option<int>>)

  // ---- reads with the defaults of Keys ----

  function ScoreAt(b: Blocks, height: nat): nat { if height in b.score then b.score[height] else 0 }

  function AssetList(s: State, id: nat): set<AssetId> { if id in s.assetList then s.assetList[id] else {} }

  function ChangedAddresses(s: State, height: nat): set<nat> {
    if height in s.changedAddresses then s.changedAddresses[height] else {}
  }

  function ChangedDataKeys(s: State, height: nat, id: nat): set<string> {
    if (height, id) in s.changedDataKeys then s.changedDataKeys[(height, id)] else {}
  }

  function SeqNr(a: AddressTxs, id: nat): nat { if id in a.seqNr then a.seqNr[id] else 0 }

  function AssetSeqNr(x: Indexes, asset: AssetId): nat { if asset in x.assetSeqNr then x.assetSeqNr[asset] else 0 }

  function DataChunkCount(x: Indexes, id: nat): nat { if id in x.dataChunkCount then x.dataChunkCount[id] else 0 }

  function LatestValue(s: State, key: VersionKey): Option<Value> { Latest(s.history, s.value, key) }

  // ---- the versioned keys an update writes, and their values ----

  function AssetsOf(u: Update, id: nat): set<AssetId> {
    if id in u.assetBalances then u.assetBalances[id].Keys else {}
  }

  function DataKeysOf(u: Update, id: nat): set<string> {
    if id in u.data then u.data[id].Keys else {}
  }

  function Combine(older: AssetInfo, newer: AssetInfo): AssetInfo {
    AssetInfo(older.isReissuable && newer.isReissuable, older.volume + newer.volume)
  }

  /** Issued and reissued quantities accumulate on what the store holds. */
  function CombinedInfo(s: State, asset: AssetId, info: AssetInfo): AssetInfo {
    match LatestValue(s, AssetInfoOf(asset))
    case Some(Info(older)) => Combine(older, info)
    case _ => info
  }

  function EarthsKeys(u: Update): (r: set<VersionKey>)
    ensures forall k :: k in r <==> k.EarthsBalance? && k.addressId in u.earthsBalances
  {
    set id | id in u.earthsBalances :: EarthsBalance(id)
  }

  function AssetKeys(u: Update): (r: set<VersionKey>)
    ensures forall k :: k in r <==> k.AssetBalance? && k.asset in AssetsOf(u, k.addressId)
  {
    set id, asset | id in u.assetBalances && asset in u.assetBalances[id] :: AssetBalance(id, asset)
  }

  function LeaseKeys(u: Update): (r: set<VersionKey>)
    ensures forall k :: k in r <==> || (k.LeaseBalanceOf? && k.addressId in u.leaseBalances)
                                    || (k.LeaseStatus? && k.lease in u.leaseStates)
  {
    (set id | id in u.leaseBalances :: LeaseBalanceOf(id)) + (set lease | lease in u.leaseStates :: LeaseStatus(lease))
  }

  function AssetInfoKeys(u: Update): (r: set<VersionKey>)
    ensures forall k :: k in r <==> || (k.AssetInfoOf? && k.asset in u.reissuedAssets)
                                    || (k.SponsorshipOf? && k.asset in u.sponsorship && u.sponsorship[k.asset].Some?)
  {
    (set asset | asset in u.reissuedAssets :: AssetInfoOf(asset))
    + (set asset | asset in u.sponsorship && u.sponsorship[asset].Some? :: SponsorshipOf(asset))
  }

  function FillKeys(u: Update): (r: set<VersionKey>)
    ensures forall k :: k in r <==> k.FilledVolumeAndFee? && k.order in u.filledQuantity
  {
    set order | order in u.filledQuantity :: FilledVolumeAndFee(order)
  }

  function ScriptKeys(u: Update): (r: set<VersionKey>)
    ensures forall k :: k in r <==> || (k.AddressScript? && k.addressId in u.scripts)
                                    || (k.AssetScript? && k.asset in u.assetScripts)
  {
    (set id | id in u.scripts :: AddressScript(id)) + (set asset | asset in u.assetScripts :: AssetScript(asset))
  }

  function DataKeys(u: Update): (r: set<VersionKey>)
    ensures forall k :: k in r <==> k.Data? && k.key in DataKeysOf(u, k.addressId)
  {
    set id, key | id in u.data && key in u.data[id] :: Data(id, key)
  }

  function ChangedKeys(u: Update): set<VersionKey> {
    EarthsKeys(u) + AssetKeys(u) + LeaseKeys(u) + AssetInfoKeys(u) + FillKeys(u) + ScriptKeys(u) + DataKeys(u) + {CarryFee}
  }

  predicate IsChanged(u: Update, key: VersionKey) {
    match key
    case EarthsBalance(id) => id in u.earthsBalances
    case AssetBalance(id, asset) => asset in AssetsOf(u, id)
    case LeaseBalanceOf(id) => id in u.leaseBalances
    case AssetInfoOf(asset) => asset in u.reissuedAssets
    case LeaseStatus(lease) => lease in u.leaseStates
    case FilledVolumeAndFee(order) => order in u.filledQuantity
    case AddressScript(id) => id in u.scripts
    case AssetScript(asset) => asset in u.assetScripts
    case Data(id, key) => key in DataKeysOf(u, id)
    case SponsorshipOf(asset) => asset in u.sponsorship && u.sponsorship[asset].Some?
    case CarryFee => true
  }

  lemma ChangedKeysAre(u: Update, key: VersionKey)
    ensures key in ChangedKeys(u) <==> IsChanged(u, key)
  {
  }

  function CodeOf(script: Option<Script>): Option<Value> {
    if script.Some? then Some(Code(script.value)) else None
  }

  function ChangedValue(s: State, u: Update, key: VersionKey): Option<Value>
    requires IsChanged(u, key)
  {
    match key
    case EarthsBalance(id) => Some(Amount(u.earthsBalances[id]))
    case AssetBalance(id, asset) => Some(Amount(u.assetBalances[id][asset]))
    case LeaseBalanceOf(id) => Some(Leases(u.leaseBalances[id]))
    case AssetInfoOf(asset) => Some(Info(CombinedInfo(s, asset, u.reissuedAssets[asset])))
    case LeaseStatus(lease) => Some(Active(u.leaseStates[lease]))
    case FilledVolumeAndFee(order) => Some(Filled(u.filledQuantity[order]))
    case AddressScript(id) => CodeOf(u.scripts[id])
    case AssetScript(asset) => CodeOf(u.assetScripts[asset])
    case Data(id, key) => Some(Entry(u.data[id][key]))
    case SponsorshipOf(asset) => Some(MinFee(u.sponsorship[asset].value))
    case CarryFee => Some(Amount(u.carry))
  }

  /** The changes of all value families under one tagged key. */
  function ChangesOf(s: State, u: Update): (r: Changes)
    ensures r.Keys == ChangedKeys(u)
  {
    map key | key in ChangedKeys(u) :: (ChangedKeysAre(u, key); ChangedValue(s, u, key))
  }
}
