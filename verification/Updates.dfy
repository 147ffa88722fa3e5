/** How append turns a difference by address into an update by address id. */
module Updates {
  import opened Common
  import opened Types
  import opened Versions
  import opened Tables
  import opened Batches
  import opened ChainBlocks
  import opened ChainAddressTxs
  import opened ChainNode
  import opened Snapshots
  import opened Diffs
  import opened Coherence

  // ---- addresses ----

  function Touched(diff: Diff): set<Address> {
    diff.portfolios.Keys + set id, a | id in diff.transactions && a in diff.transactions[id].1 :: a
  }

  ghost predicate NumberedFrom(ids: map<Address, nat>, last: nat, count: nat) {
    Injective(ids) && forall a :: a in ids ==> last < ids[a] <= last + count
  }

  /** Numbers the new addresses on from the last id, in some order. */
  method AssignIds(newAddresses: set<Address>, lastAddressId: nat) returns (newIds: map<Address, nat>)
    ensures newIds.Keys == newAddresses && NumberedFrom(newIds, lastAddressId, |newAddresses|)
  {
    hide NumberedFrom;
    newIds := map[];
    var todo, offset := newAddresses, 0;
    NoneNumbered(newIds, lastAddressId);
    while todo != {}
      invariant todo <= newAddresses && newIds.Keys == newAddresses - todo
      invariant offset + |todo| == |newAddresses|
      invariant NumberedFrom(newIds, lastAddressId, offset)
    {
      var a :| a in todo;
      OneNumbered(newIds, a, lastAddressId, offset);
      newIds := newIds[a := lastAddressId + offset + 1];
      todo, offset := todo - {a}, offset + 1;
    }
  }

  lemma NoneNumbered(ids: map<Address, nat>, last: nat)
    requires ids == map[]
    ensures NumberedFrom(ids, last, 0)
  {
  }

  lemma OneNumbered(ids: map<Address, nat>, a: Address, last: nat, count: nat)
    requires NumberedFrom(ids, last, count) && a !in ids
    ensures NumberedFrom(ids[a := last + count + 1], last, count + 1)
  {
  }

  // ---- from addresses to ids ----

  /** The same values, under the ids of their addresses. */
  ghost predicate Rekeyed<V>(ids: map<Address, nat>, from: map<Address, V>, to: map<nat, V>) {
    && from.Keys <= ids.Keys
    && (forall a :: a in from ==> ids[a] in to && to[ids[a]] == from[a])
    && (forall id :: id in to ==> exists a :: a in from && ids[a] == id)
  }

  method Rekey<V>(ids: map<Address, nat>, from: map<Address, V>) returns (to: map<nat, V>)
    requires Injective(ids) && from.Keys <= ids.Keys
    ensures Rekeyed(ids, from, to)
  {
    to := map[];
    var todo := from.Keys;
    while todo != {}
      invariant todo <= from.Keys
      invariant forall a :: a in from && a !in todo ==> ids[a] in to && to[ids[a]] == from[a]
      invariant forall id :: id in to ==> exists a :: a in from && a !in todo && ids[a] == id
    {
      var a :| a in todo;
      to := to[ids[a] := from[a]];
      todo := todo - {a};
    }
  }

  lemma RekeyedAt<V>(ids: map<Address, nat>, from: map<Address, V>, to: map<nat, V>, a: Address)
    requires Rekeyed(ids, from, to) && Injective(ids) && a in ids
    ensures Lookup(to, ids[a]) == Lookup(from, a)
  {
  }

  // ---- transactions by address ----

  predicate Lists(listed: map<nat, seq<Id>>, id: nat, tx: Id) {
    id in listed && tx in listed[id]
  }

  function AddTo(listed: map<nat, seq<Id>>, id: nat, tx: Id): map<nat, seq<Id>> {
    listed[id := (if id in listed then listed[id] else []) + [tx]]
  }

  lemma AddedTo(listed: map<nat, seq<Id>>, id: nat, tx: Id)
    ensures forall i, x :: Lists(AddTo(listed, id, tx), i, x) <==> Lists(listed, i, x) || (i == id && x == tx)
  {
  }

  /** Every address id is listed the ids of exactly the transactions that touch its address. */
  ghost predicate ListedByAddress(ids: map<Address, nat>, diff: Diff, listed: map<nat, seq<Id>>) {
    PartlyListed(ids, diff, diff.transactions.Keys, listed)
  }

  ghost predicate PartlyListed(ids: map<Address, nat>, diff: Diff, done: set<Id>, listed: map<nat, seq<Id>>) {
    && (forall id :: id in listed ==> Known(ids, id) && listed[id] != [])
    && (forall a, tx :: a in ids ==> (Lists(listed, ids[a], tx) <==> tx in done && tx in diff.transactions && a in diff.transactions[tx].1))
  }

  method ListTransaction(ids: map<Address, nat>, tx: Id, addresses: set<Address>, before: map<nat, seq<Id>>) returns (listed: map<nat, seq<Id>>)
    requires Injective(ids) && addresses <= ids.Keys
    requires forall id :: id in before ==> Known(ids, id) && before[id] != []
    ensures forall id :: id in listed ==> Known(ids, id) && listed[id] != []
    ensures forall a, x :: a in ids ==> (Lists(listed, ids[a], x) <==> Lists(before, ids[a], x) || (x == tx && a in addresses))
  {
    hide Lists, AddTo;
    listed := before;
    var todo := addresses;
    while todo != {}
      invariant todo <= addresses
      invariant forall id :: id in listed ==> Known(ids, id) && listed[id] != []
      invariant forall a, x :: a in ids ==> (Lists(listed, ids[a], x) <==> Lists(before, ids[a], x) || (x == tx && a in addresses - todo))
    {
      var a :| a in todo;
      AddedTo(listed, ids[a], tx);
      AddedKnown(ids, listed, a, tx);
      listed := AddTo(listed, ids[a], tx);
      todo := todo - {a};
    }
  }

  lemma AddedKnown(ids: map<Address, nat>, listed: map<nat, seq<Id>>, a: Address, tx: Id)
    requires a in ids
    requires forall id :: id in listed ==> Known(ids, id) && listed[id] != []
    ensures forall id :: id in AddTo(listed, ids[a], tx) ==> Known(ids, id) && AddTo(listed, ids[a], tx)[id] != []
  {
  }

  method ListTransactions(ids: map<Address, nat>, diff: Diff) returns (listed: map<nat, seq<Id>>)
    requires Injective(ids) && Touched(diff) <= ids.Keys
    ensures ListedByAddress(ids, diff, listed)
  {
    hide Known, Injective;
    listed := map[];
    var todo := diff.transactions.Keys;
    while todo != {}
      invariant todo <= diff.transactions.Keys
      invariant PartlyListed(ids, diff, diff.transactions.Keys - todo, listed)
    {
      var tx :| tx in todo;
      assert forall a :: a in diff.transactions[tx].1 ==> a in Touched(diff);
      listed := ListTransaction(ids, tx, diff.transactions[tx].1, listed);
      todo := todo - {tx};
    }
    assert diff.transactions.Keys - todo == diff.transactions.Keys;
  }

  // ---- the parts of an update, by address ----

  /** The native balances and the asset balances are the parts of all balances. */
  ghost predicate Split(v: Values) {
    && (forall a :: Lookup(v.earths, a) == Lookup(v.balances, (a, None)))
    && (forall a, asset :: Lookup(v.balances, (a, Some(asset))) == if a in v.assets then Lookup(v.assets[a], asset) else None)
  }

  // ---- computing the new values ----

  ghost function NewBalance(db: Tables, diff: Diff, k: (Address, Option<AssetId>)): Option<int> {
    var change := BalanceChange(diff, k.0, k.1);
    if change == 0 then None else Some(Plus(change, LoadBalance(db, k.0, k.1)))
  }

  ghost function NewLease(db: Tables, diff: Diff, a: Address): Option<LeaseBalance> {
    if a !in diff.portfolios || diff.portfolios[a].lease == NO_LEASES then None
    else Some(CombineLeases(LoadLeaseBalance(db, a), diff.portfolios[a].lease))
  }

  ghost predicate PartlyChanged(db: Tables, diff: Diff, done: set<Address>, v: Values) {
    && (forall k :: Lookup(v.balances, k) == if k.0 in done then NewBalance(db, diff, k) else None)
    && (forall a :: Lookup(v.leases, a) == if a in done then NewLease(db, diff, a) else None)
    && Split(v)
    && v.assets.Keys <= done
  }

  /** The new balances of one address. */
  function BalancesOf(a: Address, native: Option<int>, assets: map<AssetId, int>): map<(Address, Option<AssetId>), int> {
    (map k | k in assets :: (a, Some(k)) := assets[k]) + if native.Some? then map[(a, None) := native.value] else map[]
  }

  lemma BalancesOfAt(a: Address, native: Option<int>, assets: map<AssetId, int>, k: (Address, Option<AssetId>))
    ensures Lookup(BalancesOf(a, native, assets), k) ==
            if k.0 != a then None else match k.1 case None => native case Some(asset) => Lookup(assets, asset)
  {
  }

  /** The values with those of one more address. */
  function WithAddress(v: Values, a: Address, native: Option<int>, assets: map<AssetId, int>, lease: Option<LeaseBalance>): Values {
    v.(balances := v.balances + BalancesOf(a, native, assets),
       earths := if native.Some? then v.earths[a := native.value] else v.earths,
       assets := if assets != map[] then v.assets[a := assets] else v.assets,
       leases := if lease.Some? then v.leases[a := lease.value] else v.leases)
  }

  lemma OneChanged(db: Tables, diff: Diff, done: set<Address>, v: Values, a: Address, native: Option<int>, assets: map<AssetId, int>, lease: Option<LeaseBalance>)
    requires PartlyChanged(db, diff, done, v) && a !in done && a in diff.portfolios
    requires native == NewBalance(db, diff, (a, None)) && lease == NewLease(db, diff, a)
    requires forall k :: Lookup(assets, k) == NewBalance(db, diff, (a, Some(k)))
    ensures PartlyChanged(db, diff, done + {a}, WithAddress(v, a, native, assets, lease))
  {
    hide NewBalance, NewLease, BalancesOf, Split;
    var v' := WithAddress(v, a, native, assets, lease);
    forall k ensures Lookup(v'.balances, k) == if k.0 in done + {a} then NewBalance(db, diff, k) else None {
      BalancesOfAt(a, native, assets, k);
    }
    SplitMore(v, a, native, assets, lease);
  }

  lemma SplitMore(v: Values, a: Address, native: Option<int>, assets: map<AssetId, int>, lease: Option<LeaseBalance>)
    requires Split(v)
    requires forall asset :: (a, asset) !in v.balances
    requires a !in v.assets
    ensures Split(WithAddress(v, a, native, assets, lease))
  {
    hide BalancesOf;
    var v' := WithAddress(v, a, native, assets, lease);
    forall x ensures Lookup(v'.earths, x) == Lookup(v'.balances, (x, None)) {
      BalancesOfAt(a, native, assets, (x, None));
      assert Lookup(v.earths, x) == Lookup(v.balances, (x, None));
    }
    forall x, asset ensures Lookup(v'.balances, (x, Some(asset))) == if x in v'.assets then Lookup(v'.assets[x], asset) else None {
      BalancesOfAt(a, native, assets, (x, Some(asset)));
      assert Lookup(v.balances, (x, Some(asset))) == if x in v.assets then Lookup(v.assets[x], asset) else None;
    }
  }

  const NO_VALUES := Values(map[], map[], map[], map[], map[])

  lemma NoneChanged(db: Tables, diff: Diff)
    ensures PartlyChanged(db, diff, {}, NO_VALUES)
  {
  }

  ghost predicate AllFills(db: Tables, diff: Diff, fills: map<Id, VolumeAndFee>) {
    forall order :: Lookup(fills, order) ==
      if order in diff.orderFills then Some(CombineFills(LoadVolumeAndFee(db, order), diff.orderFills[order])) else None
  }

  lemma FillsAside(db: Tables, diff: Diff, v: Values, fills: map<Id, VolumeAndFee>)
    requires PartlyChanged(db, diff, diff.portfolios.Keys, v)
    ensures PartlyChanged(db, diff, diff.portfolios.Keys, v.(fills := fills))
  {
    hide LoadBalance, LoadLeaseBalance;
  }

  /** All addresses and orders done, the new values are the effects of the delta. */
  lemma AllChanged(db: Tables, delta: Delta, v: Values)
    requires PartlyChanged(db, delta.diff, delta.diff.portfolios.Keys, v) && AllFills(db, delta.diff, v.fills)
    ensures NewValues(db, delta, v) && Split(v)
    ensures v.earths.Keys + v.assets.Keys + v.leases.Keys <= delta.diff.portfolios.Keys
  {
    hide LatestItem, NewValues, AllFills;
    forall a | a in v.earths ensures a in delta.diff.portfolios {
      assert Lookup(v.earths, a) == Lookup(v.balances, (a, None));
    }
    forall a | a in v.leases ensures a in delta.diff.portfolios {
      assert Lookup(v.leases, a).Some?;
    }
    hide Split;
    ValuesAreNew(db, delta, v);
  }

  lemma ValuesAreNew(db: Tables, delta: Delta, v: Values)
    requires PartlyChanged(db, delta.diff, delta.diff.portfolios.Keys, v) && AllFills(db, delta.diff, v.fills)
    ensures NewValues(db, delta, v)
  {
    hide LatestItem, Split;
    forall k ensures Lookup(v.balances, k) == match Effect(delta, BalanceOf(k.0, k.1), LatestItem(db, BalanceOf(k.0, k.1)))
                                              case None => None
                                              case Some(x) => Some(AmountOf(x)) {
      assert Lookup(v.balances, k) == if k.0 in delta.diff.portfolios.Keys then NewBalance(db, delta.diff, k) else None;
    }
  }

  lemma RekeyedMore<V>(ids: map<Address, nat>, more: map<Address, nat>, from: map<Address, V>, to: map<nat, V>)
    requires Rekeyed(ids, from, to)
    requires forall a :: a in ids ==> a in more && more[a] == ids[a]
    ensures Rekeyed(more, from, to)
  {
    forall id | id in to ensures exists a :: a in from && more[a] == id {
      var a :| a in from && ids[a] == id;
      assert more[a] == id;
    }
  }

  lemma ListedMore(ids: map<Address, nat>, more: map<Address, nat>, diff: Diff, listed: map<nat, seq<Id>>)
    requires ListedByAddress(ids, diff, listed) && Touched(diff) <= ids.Keys
    requires (forall a :: a in ids ==> a in more && more[a] == ids[a]) && Injective(more)
    ensures ListedByAddress(more, diff, listed)
  {
    forall id | id in listed ensures Known(more, id) {
      var a :| a in ids && ids[a] == id;
    }
    forall a, tx | a in more
      ensures Lists(listed, more[a], tx) <==> tx in diff.transactions && a in diff.transactions[tx].1
    {
      assert tx in diff.transactions && a in diff.transactions[tx].1 ==> a in Touched(diff);
    }
  }

  ghost predicate MadeOf(u: Update, ids: map<Address, nat>, delta: Delta, v: Values) {
    && u.carry == delta.carry
    && Rekeyed(ids, v.earths, u.earthsBalances)
    && Rekeyed(ids, v.assets, u.assetBalances)
    && Rekeyed(ids, v.leases, u.leaseBalances)
    && Rekeyed(ids, delta.diff.scripts, u.scripts)
    && Rekeyed(ids, delta.diff.accountData, u.data)
    && u.leaseStates == delta.diff.leaseState
    && u.reissuedAssets == delta.diff.issuedAssets
    && u.filledQuantity == v.fills
    && u.assetScripts == delta.diff.assetScripts
    && u.sponsorship == delta.diff.sponsorship
  }

  lemma ChangedAddressKnown(u: Update, ids: map<Address, nat>, delta: Delta, v: Values, key: VersionKey)
    requires MadeOf(u, ids, delta, v)
    requires IsChanged(u, key) && AboutAddress(key)
    ensures Known(ids, key.addressId)
  {
    var id := key.addressId;
    match key
    case EarthsBalance(_) => var a :| a in v.earths && ids[a] == id;
    case AssetBalance(_, _) => var a :| a in v.assets && ids[a] == id;
    case LeaseBalanceOf(_) => var a :| a in v.leases && ids[a] == id;
    case AddressScript(_) => var a :| a in delta.diff.scripts && ids[a] == id;
    case Data(_, _) => var a :| a in delta.diff.accountData && ids[a] == id;
  }

  /** The effect on an item, given what it held. */
  ghost predicate RealizesItem(s: State, u: Update, delta: Delta, item: Item, key: VersionKey, held: Option<Value>) {
    Effect(delta, item, held) == if IsChanged(u, key) then Some(ChangedValue(s, u, key)) else None
  }

  lemma BalanceRealized(db: Tables, u: Update, ids: map<Address, nat>, delta: Delta, v: Values, item: Item)
    requires NewValues(db, delta, v) && Split(v)
    requires MadeOf(u, ids, delta, v) && Injective(ids)
    requires item.BalanceOf? && item.address in ids
    ensures RealizesItem(db.state, u, delta, item, KeyOf(ids, item).value, LatestItem(db, item))
  {
    hide LatestItem;
    var a := item.address;
    assert Lookup(v.balances, (a, item.asset)) == match Effect(delta, item, LatestItem(db, item))
                                                case None => None
                                                case Some(x) => Some(AmountOf(x));
    match item.asset
    case None => RekeyedAt(ids, v.earths, u.earthsBalances, a);
    case Some(asset) => RekeyedAt(ids, v.assets, u.assetBalances, a);
  }

  lemma LeaseRealized(db: Tables, u: Update, ids: map<Address, nat>, delta: Delta, v: Values, item: Item)
    requires NewValues(db, delta, v)
    requires MadeOf(u, ids, delta, v) && Injective(ids)
    requires item.LeaseOf? && item.address in ids
    ensures RealizesItem(db.state, u, delta, item, KeyOf(ids, item).value, LatestItem(db, item))
  {
    hide LatestItem;
    var a := item.address;
    assert Lookup(v.leases, a) == match Effect(delta, item, LatestItem(db, item))
                                case None => None
                                case Some(x) => Some(LeasesOf(x));
    RekeyedAt(ids, v.leases, u.leaseBalances, a);
  }

  lemma ScriptOrDataRealized(db: Tables, u: Update, ids: map<Address, nat>, delta: Delta,
                             v: Values, item: Item)
    requires MadeOf(u, ids, delta, v) && Injective(ids)
    requires (item.ScriptOf? || item.DataOf?) && item.address in ids
    ensures RealizesItem(db.state, u, delta, item, KeyOf(ids, item).value, LatestItem(db, item))
  {
    hide LatestItem;
    if item.ScriptOf? {
      RekeyedAt(ids, delta.diff.scripts, u.scripts, item.address);
    } else {
      RekeyedAt(ids, delta.diff.accountData, u.data, item.address);
    }
  }

  lemma KeyedRealized(db: Tables, u: Update, ids: map<Address, nat>, delta: Delta, v: Values, item: Item)
    requires NewValues(db, delta, v)
    requires MadeOf(u, ids, delta, v)
    requires item.Keyed? && !AboutAddress(item.key)
    ensures RealizesItem(db.state, u, delta, item, item.key, LatestItem(db, item))
  {
    if item.key.FilledVolumeAndFee? {
      var order := item.key.order;
      assert Lookup(v.fills, order) == match Effect(delta, item, LatestItem(db, item))
                                     case None => None
                                     case Some(x) => Some(FillOf(x));
    }
  }

  lemma NothingUnresolved(delta: Delta, ids: map<Address, nat>, item: Item)
    requires delta.diff.portfolios.Keys + delta.diff.scripts.Keys + delta.diff.accountData.Keys <= ids.Keys
    requires KeyOf(ids, item) == None
    ensures Effect(delta, item, None) == None
  {
  }

  /** An update made of the new values realizes the delta. */
  lemma MadeUpdateRealizes(db: Tables, chain: Chain, u: Update, ids: map<Address, nat>, delta: Delta, v: Values)
    requires Anchored(db, chain) && NewIds(db.addresses, u.newAddresses) && ids == db.addresses.addressId + u.newAddresses && Injective(ids)
    requires delta.diff.portfolios.Keys + delta.diff.scripts.Keys + delta.diff.accountData.Keys <= ids.Keys
    requires NewValues(db, delta, v) && Split(v)
    requires MadeOf(u, ids, delta, v)
    ensures Realizes(db.state, ids, delta, u)
  {
    hide Anchored, NewIds, NewValues, Split, MadeOf, Effect, IsChanged, ChangedValue, LatestItem, LatestValue, Known, KeyOf, RealizesItem, Injective;
    forall key | IsChanged(u, key) && AboutAddress(key) ensures Known(ids, key.addressId) {
      ChangedAddressKnown(u, ids, delta, v, key);
    }
    forall item ensures match KeyOf(ids, item)
                        case None => Effect(delta, item, None) == None
                        case Some(key) =>
                          Effect(delta, item, LatestValue(db.state, key)) == if IsChanged(u, key) then Some(ChangedValue(db.state, u, key)) else None
    {
      match KeyOf(ids, item)
      case None => NothingUnresolved(delta, ids, item);
      case Some(key) =>
        ItemRealized(db, u, ids, delta, v, item);
        HeldBefore(db, chain, u, ids, item);
        RealizedUnfolds(db.state, u, delta, item, key, LatestItem(db, item));
    }
  }

  lemma RealizedUnfolds(s: State, u: Update, delta: Delta, item: Item, key: VersionKey, held: Option<Value>)
    requires RealizesItem(s, u, delta, item, key, held)
    ensures Effect(delta, item, held) == if IsChanged(u, key) then Some(ChangedValue(s, u, key)) else None
  {
  }

  lemma ItemRealized(db: Tables, u: Update, ids: map<Address, nat>, delta: Delta, v: Values, item: Item)
    requires Injective(ids) && NewValues(db, delta, v) && Split(v)
    requires MadeOf(u, ids, delta, v)
    requires KeyOf(ids, item).Some?
    ensures RealizesItem(db.state, u, delta, item, KeyOf(ids, item).value, LatestItem(db, item))
  {
    hide NewValues, Split, MadeOf, LatestItem, RealizesItem, Injective;
    match item
    case BalanceOf(_, _) => BalanceRealized(db, u, ids, delta, v, item);
    case LeaseOf(_) => LeaseRealized(db, u, ids, delta, v, item);
    case ScriptOf(_) => ScriptOrDataRealized(db, u, ids, delta, v, item);
    case DataOf(_, _) => ScriptOrDataRealized(db, u, ids, delta, v, item);
    case Keyed(_) => KeyedRealized(db, u, ids, delta, v, item);
  }

  /** Under the ids with the new ones, an item holds what it held before: new addresses hold nothing. */
  lemma HeldBefore(db: Tables, chain: Chain, u: Update, ids: map<Address, nat>, item: Item)
    requires Anchored(db, chain) && NewIds(db.addresses, u.newAddresses) && ids == db.addresses.addressId + u.newAddresses
    requires KeyOf(ids, item).Some?
    ensures LatestValue(db.state, KeyOf(ids, item).value) == LatestItem(db, item)
  {
    hide Anchored, LatestValue, NewIds;
    if !item.Keyed? {
      var a := item.address;
      if a in u.newAddresses {
        NewUnknown(db, chain, u.newAddresses, a);
        UnknownHasNothing(db, chain, u.newAddresses[a], KeyOf(ids, item).value);
      }
    }
  }

  lemma NewUnknown(db: Tables, chain: Chain, newAddresses: map<Address, nat>, a: Address)
    requires Anchored(db, chain) && NewIds(db.addresses, newAddresses) && a in newAddresses
    ensures newAddresses[a] !in db.addresses.idToAddress && a !in db.addresses.addressId
  {
    hide NewIds, AddressesStored, BlocksStored, ListsStored, IdsKnown;
    NewIdUnknown(db.addresses, newAddresses, a);
  }

  // ---- the finished update ----

  /** Puts the new values of all families under address ids. */
  method Assemble(block: Block, carryFee: int, diff: Diff, newIds: map<Address, nat>, ids: map<Address, nat>, v: Values)
    returns (u: Update)
    requires Injective(ids) && Touched(diff) + diff.scripts.Keys + diff.accountData.Keys <= ids.Keys
    requires v.earths.Keys + v.assets.Keys + v.leases.Keys <= ids.Keys
    ensures u.block == block && u.newAddresses == newIds
    ensures MadeOf(u, ids, Delta(diff, carryFee), v)
    ensures ListedByAddress(ids, diff, u.addressTransactions)
  {
    hide Touched, Rekeyed, ListedByAddress, Injective;
    var listed := ListTransactions(ids, diff);
    var earthsBalances := Rekey(ids, v.earths);
    var assetBalances := Rekey(ids, v.assets);
    var leaseBalances := Rekey(ids, v.leases);
    var scripts := Rekey(ids, diff.scripts);
    var data := Rekey(ids, diff.accountData);
    u := Update(block, carryFee, newIds, earthsBalances, assetBalances, leaseBalances, listed, diff.leaseState, diff.issuedAssets,
                v.fills, scripts, diff.assetScripts, data, diff.sponsorship);
  }

  lemma MadeOfMore(u: Update, ids: map<Address, nat>, more: map<Address, nat>, delta: Delta, v: Values)
    requires MadeOf(u, ids, delta, v)
    requires forall a :: a in ids ==> a in more && more[a] == ids[a]
    ensures MadeOf(u, more, delta, v)
  {
    hide Rekeyed;
    RekeyedMore(ids, more, v.earths, u.earthsBalances);
    RekeyedMore(ids, more, v.assets, u.assetBalances);
    RekeyedMore(ids, more, v.leases, u.leaseBalances);
    RekeyedMore(ids, more, delta.diff.scripts, u.scripts);
    RekeyedMore(ids, more, delta.diff.accountData, u.data);
  }

  lemma AllIdsInjective(a: Addresses, newIds: map<Address, nat>)
    requires AddressesStored(a) && NewIds(a, newIds)
    ensures Injective(a.addressId + newIds)
  {
    var ids := a.addressId + newIds;
    forall x, y | x in ids && y in ids && ids[x] == ids[y] ensures x == y {
      if x !in newIds && y !in newIds {
        assert Lookup(a.idToAddress, ids[x]) == Some(x) && Lookup(a.idToAddress, ids[y]) == Some(y);
      }
    }
  }

  lemma KnownIsKnown(a: Addresses, u: Update, id: nat)
    requires AddressesStored(a) && Known(a.addressId + u.newAddresses, id)
    ensures Knows(a, u, id)
  {
    var address :| address in a.addressId + u.newAddresses && (a.addressId + u.newAddresses)[address] == id;
    assert address !in u.newAddresses ==> Lookup(a.idToAddress, id) == Some(address);
  }

  /** New ids for exactly the unknown addresses that are touched, and the ids of at least all addresses of the difference. */
  ghost predicate IdsChosen(db: Tables, diff: Diff, newIds: map<Address, nat>, ids: map<Address, nat>) {
    && newIds.Keys == Touched(diff) - db.addresses.addressId.Keys
    && NumberedFrom(newIds, db.addresses.lastAddressId, |newIds|)
    && Touched(diff) + diff.scripts.Keys + diff.accountData.Keys <= ids.Keys
    && (forall a :: a in ids ==> a in db.addresses.addressId + newIds && (db.addresses.addressId + newIds)[a] == ids[a])
  }

  lemma ChosenCover(db: Tables, diff: Diff, newIds: map<Address, nat>, ids: map<Address, nat>)
    requires IdsChosen(db, diff, newIds, ids)
    ensures Touched(diff) + diff.scripts.Keys + diff.accountData.Keys <= ids.Keys && diff.portfolios.Keys <= ids.Keys
  {
    hide NumberedFrom;
  }

  /** What append made sure of when it built the update. */
  ghost predicate Built(db: Tables, u: Update, ids: map<Address, nat>, delta: Delta, v: Values) {
    && IdsChosen(db, delta.diff, u.newAddresses, ids)
    && NewValues(db, delta, v)
    && Split(v)
    && MadeOf(u, ids, delta, v)
    && ListedByAddress(ids, delta.diff, u.addressTransactions)
  }

  lemma BuiltFrom(db: Tables, u: Update, ids: map<Address, nat>, delta: Delta, v: Values)
    requires IdsChosen(db, delta.diff, u.newAddresses, ids)
    requires NewValues(db, delta, v) && Split(v)
    requires MadeOf(u, ids, delta, v) && ListedByAddress(ids, delta.diff, u.addressTransactions)
    ensures Built(db, u, ids, delta, v)
  {
    hide NewValues, Split, MadeOf, ListedByAddress, IdsChosen;
  }

  lemma BuiltWithAllIds(db: Tables, u: Update, ids: map<Address, nat>, delta: Delta, v: Values)
    requires AddressesStored(db.addresses) && Built(db, u, ids, delta, v)
    ensures var all := db.addresses.addressId + u.newAddresses;
            Injective(all) && NewIds(db.addresses, u.newAddresses) && Built(db, u, all, delta, v)
  {
    hide NewValues, Split, MadeOf, Injective, AddressesStored, NewIds, ListedByAddress, Touched, NumberedFrom;
    var all := db.addresses.addressId + u.newAddresses;
    NumberedAreNew(db.addresses, u.newAddresses);
    AllIdsInjective(db.addresses, u.newAddresses);
    MadeOfMore(u, ids, all, delta, v);
    ListedMore(ids, all, delta.diff, u.addressTransactions);
  }

  /** The update speaks of known addresses only. */
  lemma BuiltIsAcceptable(db: Tables, u: Update, all: map<Address, nat>, delta: Delta, v: Values)
    requires AddressesStored(db.addresses) && Fresh(db.blocks.stored, u.block, db.blocks.height + 1)
    requires delta.diff.transactions.Keys <= TransactionIds(u.block.transactions)
    requires all == db.addresses.addressId + u.newAddresses && NewIds(db.addresses, u.newAddresses)
    requires Built(db, u, all, delta, v)
    ensures Acceptable(db, u)
    ensures forall id :: id in RecordedAddresses(u) ==> Knows(db.addresses, u, id)
  {
    hide FreshTransactions, NewValues, Split, MadeOf, IsChanged, Knows, Known, AddressesStored, TransactionIds, DistinctIds, Touched,
      NumberedFrom, ListedByAddress, NewIds, ListedInBlock;
    var a := db.addresses;
    forall key | AboutAddress(key) && IsChanged(u, key) ensures Knows(a, u, key.addressId) {
      ChangedAddressKnown(u, all, delta, v, key);
      KnownIsKnown(a, u, key.addressId);
    }
    forall id | id in u.assetBalances || id in u.addressTransactions || id in u.earthsBalances ensures Knows(a, u, id) {
      RekeyedKnown(u, all, delta, v, id);
      KnownIsKnown(a, u, id);
    }
    OnlyListed(all, delta.diff, u);
  }

  /** The addresses the update records are those with a changed native balance or a transaction. */
  lemma BuiltRecords(db: Tables, u: Update, all: map<Address, nat>, delta: Delta, v: Values)
    requires Built(db, u, all, delta, v) && Injective(all)
    ensures RecordsDelta(u, delta.diff, all)
  {
    hide IdsChosen, NewValues, MadeOf, ListedByAddress, Split, Known, Injective, RecordsAddress;
    ChosenCover(db, delta.diff, u.newAddresses, all);
    forall id | id in RecordedAddresses(u) ensures Known(all, id) {
      RekeyedKnown(u, all, delta, v, id);
    }
    forall a | RecordsAddress(delta.diff, a) ensures a in all {
      RecordedIsTouched(delta.diff, a);
    }
    forall a | a in all ensures all[a] in RecordedAddresses(u) <==> RecordsAddress(delta.diff, a) {
      BalanceRecorded(db, u, all, delta, v, a);
      TransactionsRecorded(all, delta.diff, u.addressTransactions, a);
      RecordsAddressIs(delta.diff, a);
    }
  }

  lemma RecordedIsTouched(diff: Diff, a: Address)
    requires RecordsAddress(diff, a)
    ensures a in Touched(diff)
  {
  }

  ghost predicate HasTransaction(diff: Diff, a: Address) {
    exists tx :: tx in diff.transactions && a in diff.transactions[tx].1
  }

  lemma RecordsAddressIs(diff: Diff, a: Address)
    ensures RecordsAddress(diff, a) <==> BalanceChange(diff, a, None) != 0 || HasTransaction(diff, a)
  {
  }

  lemma BalanceRecorded(db: Tables, u: Update, ids: map<Address, nat>, delta: Delta, v: Values, a: Address)
    requires NewValues(db, delta, v) && Split(v) && MadeOf(u, ids, delta, v) && Injective(ids) && a in ids
    ensures ids[a] in u.earthsBalances <==> BalanceChange(delta.diff, a, None) != 0
  {
    hide LatestItem;
    var item := BalanceOf(a, None);
    assert Lookup(v.balances, (a, None)) == match Effect(delta, item, LatestItem(db, item))
                                            case None => None
                                            case Some(x) => Some(AmountOf(x));
    assert Lookup(v.earths, a) == Lookup(v.balances, (a, None));
    RekeyedAt(ids, v.earths, u.earthsBalances, a);
  }

  lemma TransactionsRecorded(ids: map<Address, nat>, diff: Diff, listed: map<nat, seq<Id>>, a: Address)
    requires ListedByAddress(ids, diff, listed) && a in ids
    ensures ids[a] in listed <==> HasTransaction(diff, a)
  {
    if ids[a] in listed {
      var tx := listed[ids[a]][0];
      assert Lists(listed, ids[a], tx);
      assert tx in diff.transactions && a in diff.transactions[tx].1;
    }
    if HasTransaction(diff, a) {
      var tx :| tx in diff.transactions && a in diff.transactions[tx].1;
      assert Lists(listed, ids[a], tx);
    }
  }

  /** The update append builds is acceptable to the store, realizes the difference, and lists the transactions by address. */
  lemma UpdateIsReady(db: Tables, chain: Chain, u: Update, ids: map<Address, nat>, delta: Delta, v: Values)
    requires Anchored(db, chain) && AddressesStored(db.addresses) && Fresh(db.blocks.stored, u.block, db.blocks.height + 1)
    requires delta.diff.transactions.Keys <= TransactionIds(u.block.transactions)
    requires Built(db, u, ids, delta, v)
    ensures var all := db.addresses.addressId + u.newAddresses;
            && Acceptable(db, u) && Injective(all) && Realizes(db.state, all, delta, u)
            && ListedByAddress(all, delta.diff, u.addressTransactions) && RecordsDelta(u, delta.diff, all)
    ensures forall id :: id in RecordedAddresses(u) ==> Knows(db.addresses, u, id)
  {
    hide Anchored, Fresh, RecordsDelta, TransactionIds, Acceptable, Realizes, NewValues, Split, MadeOf, NumberedFrom, ListedByAddress, Knows, RecordedAddresses,
      Injective, NewIds, AddressesStored, Built;
    var all := db.addresses.addressId + u.newAddresses;
    BuiltWithAllIds(db, u, ids, delta, v);
    BuiltIsAcceptable(db, u, all, delta, v);
    BuiltRecords(db, u, all, delta, v);
    BuiltParts(db, u, all, delta, v);
    MadeUpdateRealizes(db, chain, u, all, delta, v);
  }

  lemma BuiltParts(db: Tables, u: Update, ids: map<Address, nat>, delta: Delta, v: Values)
    requires Built(db, u, ids, delta, v)
    ensures NewValues(db, delta, v) && Split(v)
    ensures MadeOf(u, ids, delta, v) && ListedByAddress(ids, delta.diff, u.addressTransactions)
    ensures delta.diff.portfolios.Keys + delta.diff.scripts.Keys + delta.diff.accountData.Keys <= ids.Keys
  {
    hide NewValues, Split, MadeOf, ListedByAddress, NumberedFrom;
  }

  lemma NumberedAreNew(a: Addresses, newIds: map<Address, nat>)
    requires NumberedFrom(newIds, a.lastAddressId, |newIds|) && newIds.Keys !! a.addressId.Keys
    ensures NewIds(a, newIds)
  {
  }

  lemma RekeyedKnown(u: Update, ids: map<Address, nat>, delta: Delta, v: Values, id: nat)
    requires MadeOf(u, ids, delta, v) && ListedByAddress(ids, delta.diff, u.addressTransactions)
    requires id in u.assetBalances || id in u.addressTransactions || id in u.earthsBalances
    ensures Known(ids, id)
  {
    if id in u.assetBalances {
      var a :| a in v.assets && ids[a] == id;
    } else if id in u.earthsBalances {
      var a :| a in v.earths && ids[a] == id;
    }
  }

  lemma OnlyListed(ids: map<Address, nat>, diff: Diff, u: Update)
    requires ListedByAddress(ids, diff, u.addressTransactions)
    requires diff.transactions.Keys <= TransactionIds(u.block.transactions)
    ensures ListedInBlock(u)
  {
    hide TransactionIds;
    forall id, i | id in u.addressTransactions && 0 <= i < |u.addressTransactions[id]|
      ensures u.addressTransactions[id][i] in TransactionIds(u.block.transactions)
    {
      var a :| a in ids && ids[a] == id;
      assert Lists(u.addressTransactions, ids[a], u.addressTransactions[id][i]);
    }
  }
}
