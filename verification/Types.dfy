/** The values the node stores, the keys whose values carry a history, and blocks with their transactions. */
module Types {
  import opened Common

  type Address = ByteStr
  type AssetId = ByteStr
  type Id = ByteStr // of a block, a transaction, a lease or an order
  type Script = ByteStr
  type DataEntry = ByteStr

  datatype LeaseBalance = LeaseBalance(incoming: int, outgoing: int)
  datatype VolumeAndFee = VolumeAndFee(volume: int, fee: int)
  datatype AssetInfo = AssetInfo(isReissuable: bool, volume: int)

  /** A key family with a height history: one constructor for each pair of a history key and a value key in Keys. */
  datatype VersionKey =
    | EarthsBalance(addressId: nat)
    | AssetBalance(addressId: nat, asset: AssetId)
    | LeaseBalanceOf(addressId: nat)
    | AssetInfoOf(asset: AssetId)
    | LeaseStatus(lease: Id)
    | FilledVolumeAndFee(order: Id)
    | AddressScript(addressId: nat)
    | AssetScript(asset: AssetId)
    | Data(addressId: nat, key: string)
    | SponsorshipOf(asset: AssetId)
    | CarryFee

  datatype Value =
    | Amount(amount: int)
    | Leases(leases: LeaseBalance)
    | Info(info: AssetInfo)
    | Active(active: bool)
    | Filled(filled: VolumeAndFee)
    | Code(script: Script)
    | Entry(entry: DataEntry)
    | MinFee(minFee: int)

  datatype Payload =
    | Genesis
    | Transfer // also payments and mass transfers
    | Issue
    | Reissue(assetId: AssetId)
    | Burn(assetId: AssetId)
    | SponsorFee(assetId: AssetId)
    | Lease
    | LeaseCancel(leaseId: Id)
    | SetScript(sender: Address)
    | SetAssetScript(assetId: AssetId)
    | DataChange // also contract invocations
    | CreateAlias
    | Exchange(buyOrder: Id, sellOrder: Id)

  datatype Transaction = Transaction(id: Id, typeId: nat, timestamp: int, payload: Payload)

  /** What the store keeps of a block apart from its transactions; the byte layout is in module BlockCodec. */
  datatype Header = Header(id: Id, timestamp: int, score: nat, transactionCount: nat)
  datatype Block = Block(header: Header, transactions: seq<Transaction>)
}
