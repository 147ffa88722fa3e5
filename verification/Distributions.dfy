/**
 Enumerations at a height: the native distribution, the data of an account, and the paged distribution of an asset, which
 stays the same list while blocks come and go above its height.
 */
module Distributions {
  import opened Common
  import opened Types
  import opened Histories
  import opened Versions
  import opened Enumerations
  import opened Tables
  import opened Batches
  import opened ChainBlocks
  import opened ChainState
  import opened ChainIndexes
  import opened ChainNode
  import opened ChainRuns

  /** The balance in force at a height; 0 if there is none. */
  function BalanceAt(s: State, key: VersionKey, height: int): int {
    match ReadAt(s.history, s.value, key, height)
    case Some(Amount(balance)) => balance
    case _ => 0
  }

  ghost function ChainBalance(chain: Chain, key: VersionKey, height: nat): int
    requires height <= chain.Height()
  {
    match ValueAt(Deltas(chain), key, height)
    case Some(Amount(balance)) => balance
    case _ => 0
  }

  lemma BalanceIsChainBalance(db: Tables, chain: Chain, key: VersionKey, height: nat)
    requires Stored(db, chain) && Floor(key, db.blocks.safeRollbackHeight) <= height <= chain.Height()
    ensures BalanceAt(db.state, key, height) == ChainBalance(chain, key, height)
  {
    hide Stored;
    PastReads(db, chain, key, height);
  }

  lemma NoBalanceWithoutHistory(s: State, key: VersionKey, height: int)
    requires !HasHistory(s, key)
    ensures BalanceAt(s, key, height) == 0
  {
  }

  // ---- native distribution ----

  function EarthsIds(x: Indexes): (r: set<nat>)
    ensures forall id :: id in r <==> InEarthsIndex(x, id)
  {
    set n, id | 1 <= n <= x.earthsSeqNr && n in x.addressesForEarths && id in x.addressesForEarths[n] :: id
  }

  function EarthsDistribution(db: Tables, height: int): map<Address, int>
    requires AddressesStored(db.addresses)
  {
    map address | address in db.addresses.addressId
                  && db.addresses.addressId[address] in EarthsIds(db.indexes)
                  && BalanceAt(db.state, EarthsBalance(db.addresses.addressId[address]), height) > 0
      :: BalanceAt(db.state, EarthsBalance(db.addresses.addressId[address]), height)
  }

  lemma EarthsDistributionAt(db: Tables, height: int, id: nat)
    requires AddressesStored(db.addresses) && id in db.addresses.idToAddress
    ensures Lookup(EarthsDistribution(db, height), db.addresses.idToAddress[id]) ==
            if InEarthsIndex(db.indexes, id) && BalanceAt(db.state, EarthsBalance(id), height) > 0
            then Some(BalanceAt(db.state, EarthsBalance(id), height)) else None
  {
    hide BalanceAt, InEarthsIndex;
    var address := db.addresses.idToAddress[id];
    if address in EarthsDistribution(db, height) {
      var other :| other in EarthsIds(db.indexes) && other in db.addresses.idToAddress && db.addresses.idToAddress[other] == address
                   && BalanceAt(db.state, EarthsBalance(other), height) > 0;
      assert Lookup(db.addresses.addressId, address) == Some(id) == Some(other);
    }
  }

  lemma OnlyKnownAddresses(db: Tables, height: int)
    requires AddressesStored(db.addresses)
    ensures forall address :: address in EarthsDistribution(db, height) ==> address in db.addresses.addressId
  {
  }

  /** The native distribution at a height lists exactly the addresses with a positive balance after that many blocks. */
  lemma EarthsDistributionExact(db: Tables, chain: Chain, height: nat, id: nat)
    requires Stored(db, chain) && id in db.addresses.idToAddress
    requires Floor(EarthsBalance(id), db.blocks.safeRollbackHeight) <= height <= chain.Height()
    ensures AddressesStored(db.addresses)
    ensures var balance := ChainBalance(chain, EarthsBalance(id), height);
            Lookup(EarthsDistribution(db, height), db.addresses.idToAddress[id]) == if balance > 0 then Some(balance) else None
    ensures forall address :: address in EarthsDistribution(db, height) ==> address in db.addresses.addressId
  {
    OnlyKnownAddresses(db, height);
    hide BlocksStored, ChainAddressTxs.ListsStored, StateStored, AddressesStored, IdsKnown, HasHistory, InEarthsIndex, BalanceAt, EarthsDistribution,
      DataIndexed, AssetIndexed, AssetsListed;
    BalanceIsChainBalance(db, chain, EarthsBalance(id), height);
    EarthsDistributionAt(db, height, id);
    if BalanceAt(db.state, EarthsBalance(id), height) > 0 && !HasHistory(db.state, EarthsBalance(id)) {
      NoBalanceWithoutHistory(db.state, EarthsBalance(id), height);
    }
  }

  // ---- account data ----

  function ListedDataKeys(x: Indexes, id: nat): (r: set<string>)
    ensures forall key :: key in r <==> InDataIndex(x, id, key)
  {
    set n, key | 0 <= n < DataChunkCount(x, id) && (id, n) in x.dataChunk && key in x.dataChunk[(id, n)] :: key
  }

  /** All entries of an account: every listed key whose point lookup finds a value. */
  function AccountData(db: Tables, id: nat): map<string, Value> {
    map key | key in ListedDataKeys(db.indexes, id) && LatestValue(db.state, Data(id, key)).Some?
      :: LatestValue(db.state, Data(id, key)).value
  }

  /** The listing agrees with the point lookups on every key, although the index is never cut back. */
  lemma AccountDataExact(db: Tables, chain: Chain, id: nat, key: string)
    requires Stored(db, chain)
    ensures Lookup(AccountData(db, id), key) == LatestValue(db.state, Data(id, key)) == ValueAt(Deltas(chain), Data(id, key), chain.Height())
  {
    hide BlocksStored, ChainAddressTxs.ListsStored, StateStored, AddressesStored, IdsKnown, InDataIndex, EarthsIndexed, AssetIndexed, AssetsListed;
    LatestReads(db, chain, Data(id, key));
    assert LatestValue(db.state, Data(id, key)).Some? ==> HasHistory(db.state, Data(id, key));
  }

  // ---- asset distribution ----

  /** The holders among the listed ids with a positive balance at the height, in order. */
  function Positive(db: Tables, asset: AssetId, height: int, ids: seq<nat>): (r: seq<(Address, int)>)
    requires forall i :: 0 <= i < |ids| ==> ids[i] in db.addresses.idToAddress
  {
    if ids == [] then [] else
    var balance := BalanceAt(db.state, AssetBalance(ids[0], asset), height);
    (if balance > 0 then [(db.addresses.idToAddress[ids[0]], balance)] else []) + Positive(db, asset, height, ids[1..])
  }

  /** s.dropWhile(_ != v).drop(1) */
  function DropThrough(ids: seq<nat>, v: nat): (r: seq<nat>)
    ensures forall x :: x in r ==> x in ids
  {
    if ids == [] then [] else if ids[0] == v then ids[1..] else DropThrough(ids[1..], v)
  }

  function TakeAfter(ids: seq<nat>, from: Option<nat>): (r: seq<nat>)
    ensures forall x :: x in r ==> x in ids
  {
    match from
    case None => ids
    case Some(v) => DropThrough(ids, v)
  }

  datatype Page = Page(hasNext: bool, lastKey: Option<Address>, items: seq<(Address, int)>)
  datatype PageResult = Ok(page: Page) | TooOld

  ghost predicate HoldersKnown(db: Tables, asset: AssetId) {
    forall id :: id in Holders(db.indexes, asset) ==> id in db.addresses.idToAddress
  }

  function PageOf(listing: seq<(Address, int)>, count: nat): Page {
    var hasNext := |listing| > count;
    var items := if hasNext then listing[..count] else listing;
    Page(hasNext, if items == [] then None else Some(items[|items| - 1].0), items)
  }

  function AssetDistributionAtHeight(db: Tables, asset: AssetId, height: int, count: nat, fromAddress: Option<Address>): PageResult
    requires HoldersKnown(db, asset)
  {
    if height > db.blocks.safeRollbackHeight then
      var from := if fromAddress.Some? then Lookup(db.addresses.addressId, fromAddress.value) else None;
      var ids := TakeAfter(Holders(db.indexes, asset), from);
      assert forall i :: 0 <= i < |ids| ==> ids[i] in ids;
      Ok(PageOf(Positive(db, asset, height, ids), count))
    else TooOld
  }

  /** The whole distribution at the height. */
  ghost function Listing(db: Tables, asset: AssetId, height: int): seq<(Address, int)>
    requires HoldersKnown(db, asset)
  {
    var ids := Holders(db.indexes, asset);
    assert forall i :: 0 <= i < |ids| ==> ids[i] in ids;
    Positive(db, asset, height, ids)
  }

  lemma HoldersAreKnown(db: Tables, chain: Chain, asset: AssetId)
    requires Stored(db, chain)
    ensures HoldersKnown(db, asset) && Distinct(Holders(db.indexes, asset)) && AddressesStored(db.addresses)
  {
    hide BlocksStored, ChainAddressTxs.ListsStored, StateStored, EarthsIndexed, DataIndexed, AssetsListed, Holders, AddressesStored;
    assert AssetIndexed(db.indexes, db.state, asset);
  }

  /** An entry of the listing names an id of the list with its positive balance. */
  lemma {:induction false} PositiveEntries(db: Tables, asset: AssetId, height: int, ids: seq<nat>, address: Address, balance: int)
    requires forall i :: 0 <= i < |ids| ==> ids[i] in db.addresses.idToAddress
    requires AddressesStored(db.addresses)
    ensures (address, balance) in Positive(db, asset, height, ids) <==>
            address in db.addresses.addressId && db.addresses.addressId[address] in ids && balance > 0
            && BalanceAt(db.state, AssetBalance(db.addresses.addressId[address], asset), height) == balance
  {
    hide BalanceAt;
    if ids != [] {
      PositiveEntries(db, asset, height, ids[1..], address, balance);
      assert Lookup(db.addresses.addressId, db.addresses.idToAddress[ids[0]]) == Some(ids[0]);
      if address in db.addresses.addressId {
        assert Lookup(db.addresses.idToAddress, db.addresses.addressId[address]) == Some(address);
      }
    }
  }

  /** No address is listed twice. */
  lemma {:induction false} PositiveDistinct(db: Tables, asset: AssetId, height: int, ids: seq<nat>)
    requires forall i :: 0 <= i < |ids| ==> ids[i] in db.addresses.idToAddress
    requires AddressesStored(db.addresses) && Distinct(ids)
    ensures var listed := Positive(db, asset, height, ids);
            forall i, j :: 0 <= i < j < |listed| ==> listed[i].0 != listed[j].0
  {
    hide BalanceAt;
    if ids != [] {
      PositiveDistinct(db, asset, height, ids[1..]);
      var rest := Positive(db, asset, height, ids[1..]);
      var first := db.addresses.idToAddress[ids[0]];
      forall j | 0 <= j < |rest| ensures rest[j].0 != first {
        PositiveEntries(db, asset, height, ids[1..], rest[j].0, rest[j].1);
        assert rest[j] in rest;
        assert Lookup(db.addresses.addressId, first) == Some(ids[0]);
        assert ids[0] !in ids[1..];
      }
    }
  }

  /** The listing holds every positive holder at the height exactly once, with the balance the chain gives it. */
  lemma ListingExact(db: Tables, chain: Chain, asset: AssetId, height: nat, address: Address, balance: int)
    requires Stored(db, chain) && db.blocks.safeRollbackHeight <= height <= chain.Height()
    ensures HoldersKnown(db, asset)
    ensures (address, balance) in Listing(db, asset, height) <==>
            address in db.addresses.addressId && balance > 0 && ChainBalance(chain, AssetBalance(db.addresses.addressId[address], asset), height) == balance
    ensures var listed := Listing(db, asset, height); forall i, j :: 0 <= i < j < |listed| ==> listed[i].0 != listed[j].0
  {
    hide BlocksStored, ChainAddressTxs.ListsStored, StateStored, EarthsIndexed, DataIndexed, IdsKnown, Holders, AddressesStored, BalanceAt, HasHistory, ChainBalance;
    HoldersAreKnown(db, chain, asset);
    var ids := Holders(db.indexes, asset);
    assert forall i :: 0 <= i < |ids| ==> ids[i] in ids;
    PositiveEntries(db, asset, height, ids, address, balance);
    PositiveDistinct(db, asset, height, ids);
    if address in db.addresses.addressId {
      var id := db.addresses.addressId[address];
      BalanceIsChainBalance(db, chain, AssetBalance(id, asset), height);
      assert AssetIndexed(db.indexes, db.state, asset);
      if id !in ids {
        assert !HasHistory(db.state, AssetBalance(id, asset));
        NoBalanceWithoutHistory(db.state, AssetBalance(id, asset), height);
      }
    }
  }

  // ---- following lastKey from page to page ----

  lemma {:induction false} PositiveAfter(db: Tables, asset: AssetId, height: int, ids: seq<nat>, i: nat)
    requires forall k :: 0 <= k < |ids| ==> ids[k] in db.addresses.idToAddress
    requires AddressesStored(db.addresses) && Distinct(ids)
    requires i < |Positive(db, asset, height, ids)|
    ensures var listed := Positive(db, asset, height, ids);
            && listed[i].0 in db.addresses.addressId
            && db.addresses.addressId[listed[i].0] in ids
            && (forall k :: 0 <= k < |DropThrough(ids, db.addresses.addressId[listed[i].0])| ==>
                  DropThrough(ids, db.addresses.addressId[listed[i].0])[k] in db.addresses.idToAddress)
            && Positive(db, asset, height, DropThrough(ids, db.addresses.addressId[listed[i].0])) == listed[i + 1..]
  {
    hide BalanceAt;
    var first := db.addresses.idToAddress[ids[0]];
    var rest := Positive(db, asset, height, ids[1..]);
    var listed := Positive(db, asset, height, ids);
    assert Lookup(db.addresses.addressId, first) == Some(ids[0]);
    if BalanceAt(db.state, AssetBalance(ids[0], asset), height) > 0 {
      assert listed[1..] == rest;
      if i > 0 {
        PositiveAfter(db, asset, height, ids[1..], i - 1);
        assert listed[i + 1..] == rest[i..];
      }
    } else {
      PositiveAfter(db, asset, height, ids[1..], i);
    }
  }

  /** The page after an entry of the listing starts right behind that entry. */
  lemma PageFollows(db: Tables, asset: AssetId, height: int, count: nat, i: nat)
    requires HoldersKnown(db, asset) && AddressesStored(db.addresses) && Distinct(Holders(db.indexes, asset))
    requires height > db.blocks.safeRollbackHeight
    requires i <= |Listing(db, asset, height)|
    ensures var listing := Listing(db, asset, height);
            AssetDistributionAtHeight(db, asset, height, count, if i == 0 then None else Some(listing[i - 1].0))
            == Ok(PageOf(listing[i..], count))
  {
    hide Positive, Holders, PageOf, AddressesStored;
    var ids := Holders(db.indexes, asset);
    assert forall k :: 0 <= k < |ids| ==> ids[k] in ids;
    var listing := Listing(db, asset, height);
    if i == 0 {
      assert listing[0..] == listing;
    } else {
      PositiveAfter(db, asset, height, ids, i - 1);
    }
  }

  /**
   What a page says of itself: it holds the next entries up to the count, a further page is announced exactly if entries are
   left, and the key to go on from is the last address on the page. Nothing is served at heights that may be rolled back to.
   */
  lemma PageExact(db: Tables, asset: AssetId, height: int, count: nat, i: nat)
    requires HoldersKnown(db, asset) && AddressesStored(db.addresses) && Distinct(Holders(db.indexes, asset))
    requires i <= |Listing(db, asset, height)|
    ensures var listing := Listing(db, asset, height);
            match AssetDistributionAtHeight(db, asset, height, count, if i == 0 then None else Some(listing[i - 1].0))
            case TooOld => height <= db.blocks.safeRollbackHeight
            case Ok(Page(hasNext, lastKey, items)) =>
              && height > db.blocks.safeRollbackHeight
              && items <= listing[i..] && |items| <= count
              && (hasNext <==> i + |items| < |listing|) && (hasNext ==> |items| == count)
              && lastKey == if items == [] then None else Some(listing[i + |items| - 1].0)
  {
    hide Positive, Holders, AddressesStored;
    if height > db.blocks.safeRollbackHeight {
      PageFollows(db, asset, height, count, i);
    }
  }

  /** The store can serve the pages of the listing. */
  ghost predicate Serves(db: Tables, asset: AssetId, height: int, listing: seq<(Address, int)>) {
    && HoldersKnown(db, asset) && AddressesStored(db.addresses) && Distinct(Holders(db.indexes, asset))
    && height > db.blocks.safeRollbackHeight
    && Listing(db, asset, height) == listing
  }

  /** What a client collects that asks each store in turn, from the last key of the page before, until there is no next page. */
  ghost function Collected(stores: seq<Tables>, asset: AssetId, height: int, count: nat, from: Option<Address>): seq<(Address, int)>
    requires forall i :: 0 <= i < |stores| ==> HoldersKnown(stores[i], asset)
    decreases |stores|
  {
    if stores == [] then [] else
    match AssetDistributionAtHeight(stores[0], asset, height, count, from)
    case TooOld => []
    case Ok(page) => page.items + if page.hasNext then Collected(stores[1..], asset, height, count, page.lastKey) else []
  }

  /**
   Paging is complete and stable: as long as every store asked serves the same listing, the pages together are that
   listing, each entry once and in order.
   */
  lemma {:induction false} PagesComplete(stores: seq<Tables>, asset: AssetId, height: int, count: nat, listing: seq<(Address, int)>, i: nat)
    requires forall k :: 0 <= k < |stores| ==> HoldersKnown(stores[k], asset)
    requires forall k :: 0 <= k < |stores| ==> Serves(stores[k], asset, height, listing)
    requires count >= 1 && i <= |listing| && |listing| - i < |stores|
    ensures Collected(stores, asset, height, count, if i == 0 then None else Some(listing[i - 1].0)) == listing[i..]
    decreases |stores|
  {
    hide AssetDistributionAtHeight, HoldersKnown, AddressesStored, Listing, Holders;
    assert Serves(stores[0], asset, height, listing);
    PageFollows(stores[0], asset, height, count, i);
    var rest := listing[i..];
    if |rest| > count {
      PagesComplete(stores[1..], asset, height, count, listing, i + count);
      assert rest[..count] + listing[i + count..] == rest;
      assert rest[..count][count - 1] == listing[i + count - 1];
    }
  }

  // ---- the listing does not change while the blocks up to its height stay ----

  lemma {:induction false} PositiveSame(a: Tables, b: Tables, asset: AssetId, height: int, ids: seq<nat>)
    requires forall k :: 0 <= k < |ids| ==> ids[k] in a.addresses.idToAddress
    requires forall id :: id in a.addresses.idToAddress ==> Lookup(b.addresses.idToAddress, id) == Some(a.addresses.idToAddress[id])
    requires forall id :: BalanceAt(a.state, AssetBalance(id, asset), height) == BalanceAt(b.state, AssetBalance(id, asset), height)
    ensures forall k :: 0 <= k < |ids| ==> ids[k] in b.addresses.idToAddress
    ensures Positive(b, asset, height, ids) == Positive(a, asset, height, ids)
  {
    hide BalanceAt;
    if ids != [] {
      assert Lookup(b.addresses.idToAddress, ids[0]) == Some(a.addresses.idToAddress[ids[0]]);
      PositiveSame(a, b, asset, height, ids[1..]);
    }
  }

  lemma {:induction false} NothingPositive(db: Tables, asset: AssetId, height: int, ids: seq<nat>)
    requires forall k :: 0 <= k < |ids| ==> ids[k] in db.addresses.idToAddress
    requires forall k :: 0 <= k < |ids| ==> BalanceAt(db.state, AssetBalance(ids[k], asset), height) <= 0
    ensures Positive(db, asset, height, ids) == []
  {
    hide BalanceAt;
    if ids != [] {
      NothingPositive(db, asset, height, ids[1..]);
    }
  }

  lemma {:induction false} PositiveConcat(db: Tables, asset: AssetId, height: int, ids: seq<nat>, more: seq<nat>)
    requires forall k :: 0 <= k < |ids| ==> ids[k] in db.addresses.idToAddress
    requires forall k :: 0 <= k < |more| ==> more[k] in db.addresses.idToAddress
    ensures forall k :: 0 <= k < |ids + more| ==> (ids + more)[k] in db.addresses.idToAddress
    ensures Positive(db, asset, height, ids + more) == Positive(db, asset, height, ids) + Positive(db, asset, height, more)
  {
    hide BalanceAt;
    if ids == [] {
      assert ids + more == more;
    } else {
      assert (ids + more)[1..] == ids[1..] + more;
      PositiveConcat(db, asset, height, ids[1..], more);
    }
  }

  /** The later store knows every address of the earlier one and lists the earlier holders first. */
  ghost predicate Later(a: Tables, b: Tables, asset: AssetId) {
    && (forall id :: id in a.addresses.idToAddress ==> Lookup(b.addresses.idToAddress, id) == Some(a.addresses.idToAddress[id]))
    && Holders(a.indexes, asset) <= Holders(b.indexes, asset)
  }

  lemma ListingKept(a: Tables, chainA: Chain, b: Tables, chainB: Chain, asset: AssetId, height: nat)
    requires Stored(a, chainA) && Stored(b, chainB) && Later(a, b, asset)
    requires a.blocks.safeRollbackHeight <= height <= chainA.Height()
    requires b.blocks.safeRollbackHeight <= height <= chainB.Height()
    requires forall id :: ChainBalance(chainA, AssetBalance(id, asset), height) == ChainBalance(chainB, AssetBalance(id, asset), height)
    ensures HoldersKnown(a, asset) && HoldersKnown(b, asset)
    ensures Listing(b, asset, height) == Listing(a, asset, height)
  {
    hide BlocksStored, ChainAddressTxs.ListsStored, StateStored, EarthsIndexed, DataIndexed, IdsKnown, AddressesStored, Holders, BalanceAt,
      ChainBalance, HasHistory, Positive;
    HoldersAreKnown(a, chainA, asset);
    HoldersAreKnown(b, chainB, asset);
    var ids, all := Holders(a.indexes, asset), Holders(b.indexes, asset);
    assert forall k :: 0 <= k < |ids| ==> ids[k] in ids;
    assert forall k :: 0 <= k < |all| ==> all[k] in all;
    var more := all[|ids|..];
    assert all == ids + more;
    forall id ensures BalanceAt(a.state, AssetBalance(id, asset), height) == BalanceAt(b.state, AssetBalance(id, asset), height) {
      BalanceIsChainBalance(a, chainA, AssetBalance(id, asset), height);
      BalanceIsChainBalance(b, chainB, AssetBalance(id, asset), height);
    }
    forall k | 0 <= k < |more| ensures BalanceAt(b.state, AssetBalance(more[k], asset), height) <= 0 {
      assert more[k] == all[|ids| + k];
      assert more[k] !in ids;
      assert AssetIndexed(a.indexes, a.state, asset);
      NoBalanceWithoutHistory(a.state, AssetBalance(more[k], asset), height);
    }
    PositiveSame(a, b, asset, height, ids);
    PositiveConcat(b, asset, height, ids, more);
    NothingPositive(b, asset, height, more);
  }

  /** A run whose rollbacks never go below the height of the listing. */
  ghost predicate StaysAbove(steps: seq<Step>, height: nat) {
    forall i :: 0 <= i < |steps| ==> steps[i].RollbackStep? ==> steps[i].target >= height
  }

  lemma LaterStill(a: Tables, b: Tables, c: Tables, asset: AssetId)
    requires Later(a, b, asset) && Later(b, c, asset)
    ensures Later(a, c, asset)
  {
    hide Holders;
    forall id | id in a.addresses.idToAddress ensures Lookup(c.addresses.idToAddress, id) == Some(a.addresses.idToAddress[id]) {
      assert Lookup(b.addresses.idToAddress, id) == Some(a.addresses.idToAddress[id]);
    }
  }

  lemma LaterItself(db: Tables, asset: AssetId)
    ensures Later(db, db, asset)
  {
  }

  lemma {:induction false} RunIsLater(db: Tables, chain: Chain, steps: seq<Step>, maxRollbackDepth: nat, last: Tables, lastChain: Chain,
                                      asset: AssetId, height: nat)
    requires Stored(db, chain) && Run(db, chain, steps, maxRollbackDepth, last, lastChain)
    requires StaysAbove(steps, height) && height <= chain.Height()
    ensures Later(db, last, asset)
    ensures height <= lastChain.Height() && Deltas(lastChain.Upto(height)) == Deltas(chain.Upto(height))
    ensures db.blocks.safeRollbackHeight <= last.blocks.safeRollbackHeight
    decreases |steps|
  {
    hide Stored, Acceptable, AppendTables, RolledBack, CoveredAbove, Later, StepTables, StepChain;
    if steps != [] {
      var next, nextChain := StepTables(db, chain, steps[0], maxRollbackDepth), StepChain(db, chain, steps[0]);
      StepIsLater(db, chain, steps[0], maxRollbackDepth, asset, height);
      RunIsLater(next, nextChain, steps[1..], maxRollbackDepth, last, lastChain, asset, height);
      LaterStill(db, next, last, asset);
    } else {
      LaterItself(db, asset);
    }
  }

  lemma StepIsLater(db: Tables, chain: Chain, step: Step, maxRollbackDepth: nat, asset: AssetId, height: nat)
    requires Stored(db, chain) && Permitted(db, chain, step)
    requires height <= chain.Height() && (step.RollbackStep? ==> step.target >= height)
    ensures var next, nextChain := StepTables(db, chain, step, maxRollbackDepth), StepChain(db, chain, step);
            && Stored(next, nextChain)
            && Later(db, next, asset)
            && height <= nextChain.Height() && nextChain.Upto(height) == chain.Upto(height)
            && db.blocks.safeRollbackHeight <= next.blocks.safeRollbackHeight
  {
    hide Stored, Acceptable, AppendTables, RolledBack, CoveredAbove, Holders;
    match step
    case AppendStep(u) =>
      AppendKeepsStore(db, chain, u, maxRollbackDepth);
      AppendIsLater(db, chain, u, maxRollbackDepth, asset);
    case RollbackStep(target) =>
      CoveredRollback(db, chain, target);
      RolledBackIndexes(db, target);
      UptoUpto(chain, target, height);
  }

  lemma AppendIsLater(db: Tables, chain: Chain, u: Update, maxRollbackDepth: nat, asset: AssetId)
    requires Stored(db, chain) && Acceptable(db, u)
    ensures Later(db, After(db, u, maxRollbackDepth), asset)
    ensures db.blocks.safeRollbackHeight <= After(db, u, maxRollbackDepth).blocks.safeRollbackHeight
  {
    hide BlocksStored, ChainAddressTxs.ListsStored, StateStored, Indexed, IdsKnown, Holders, AppendIndexes, Fresh, SpeaksOfKnown, Inverse,
      CommitState, CommitAddressTxs, AppendStateBatch, AppendAddressTxBatch, CommitBlocks;
    var after := After(db, u, maxRollbackDepth);
    HoldersAfter(db.indexes, db.state, u, after.indexes, asset);
    forall id | id in db.addresses.idToAddress ensures Lookup(after.addresses.idToAddress, id) == Some(db.addresses.idToAddress[id]) {
      InverseAt(u.newAddresses, id);
      assert Lookup(db.addresses.addressId, db.addresses.idToAddress[id]) == Some(id);
    }
  }

  lemma {:induction false} RolledBackIndexes(db: Tables, target: nat)
    ensures RolledBack(db, target).indexes == db.indexes && RolledBack(db, target).addresses == db.addresses
    decreases db.blocks.height
  {
    hide CommitBlocks, CommitState, CommitAddressTxs;
    if CanStepBack(db, target) {
      RolledBackIndexes(RollbackTables(db, db.blocks.height), target);
    }
  }

  lemma {:induction false} UptoUpto(chain: Chain, target: nat, height: nat)
    requires height <= target <= chain.Height()
    ensures chain.Upto(target).Upto(height) == chain.Upto(height)
  {
    if target < chain.Height() {
      UptoUpto(chain.below, target, height);
    }
  }

  lemma {:induction false} DeltasUpto(chain: Chain, key: VersionKey, height: nat)
    requires height <= chain.Height()
    ensures ValueAt(Deltas(chain), key, height) == ValueAt(Deltas(chain.Upto(height)), key, height)
  {
    if height < chain.Height() {
      DeltasUpto(chain.below, key, height);
      SamePrefix(Deltas(chain.below), Deltas(chain), key, height);
    }
  }

  /**
   The listing of an asset at a height is the same before and after any run that keeps the blocks up to the height and
   does not let the safe rollback height reach it, so pages may be requested across appends and rollbacks alike.
   */
  lemma ListingStable(db: Tables, chain: Chain, steps: seq<Step>, maxRollbackDepth: nat, last: Tables, lastChain: Chain,
                      asset: AssetId, height: nat)
    requires Stored(db, chain) && Run(db, chain, steps, maxRollbackDepth, last, lastChain)
    requires StaysAbove(steps, height) && height <= chain.Height()
    requires last.blocks.safeRollbackHeight < height
    ensures HoldersKnown(db, asset) && Serves(last, asset, height, Listing(db, asset, height))
  {
    hide Stored, Run, AddressesStored, Holders;
    RunKeepsStore(db, chain, steps, maxRollbackDepth, last, lastChain);
    RunIsLater(db, chain, steps, maxRollbackDepth, last, lastChain, asset, height);
    forall id ensures ChainBalance(chain, AssetBalance(id, asset), height) == ChainBalance(lastChain, AssetBalance(id, asset), height) {
      DeltasUpto(chain, AssetBalance(id, asset), height);
      DeltasUpto(lastChain, AssetBalance(id, asset), height);
    }
    ListingKept(db, chain, last, lastChain, asset, height);
    HoldersAreKnown(last, lastChain, asset);
  }
}
