/** Paging through the transactions of an address. */
module AddressPaging {
  import opened Common
  import opened Types
  import opened Enumerations
  import opened Tables
  import opened Batches
  import opened ChainBlocks
  import opened ChainAddressTxs
  import opened ChainNode
  import ChainState
  import ChainIndexes

  datatype Item = Item(height: nat, typeId: nat, num: nat)
  datatype Page = NoSuchTransaction | Listed(items: seq<(nat, Transaction)>)

  // ---- the source's stream operations ----

  function ItemsOf(height: nat, typeNums: seq<(nat, nat)>): (r: seq<Item>)
    ensures |r| == |typeNums|
    ensures forall i :: 0 <= i < |r| ==> r[i] == Item(height, typeNums[i].0, typeNums[i].1)
  {
    if typeNums == [] then [] else [Item(height, typeNums[0].0, typeNums[0].1)] + ItemsOf(height, typeNums[1..])
  }

  /** The entries of an address from the given number down to 1. */
  function HeightNumStream(hn: map<(nat, nat), Entry>, id: nat, seqNr: nat): seq<Item> {
    if seqNr == 0 then []
    else (if (id, seqNr) in hn then ItemsOf(hn[(id, seqNr)].0, hn[(id, seqNr)].1) else []) + HeightNumStream(hn, id, seqNr - 1)
  }

  function TakeTypes(items: seq<Item>, types: set<nat>): (r: seq<Item>)
    ensures forall x :: x in r <==> x in items && (types == {} || x.typeId in types)
  {
    if items == [] then []
    else (if types == {} || items[0].typeId in types then [items[0]] else []) + TakeTypes(items[1..], types)
  }

  function DropNewer(items: seq<Item>, afterHeight: nat): seq<Item> {
    if items != [] && items[0].height > afterHeight then DropNewer(items[1..], afterHeight) else items
  }

  function DropThrough(items: seq<Item>, afterHeight: nat, afterNum: nat): seq<Item> {
    if items != [] && items[0].num >= afterNum && items[0].height >= afterHeight
    then DropThrough(items[1..], afterHeight, afterNum) else items
  }

  function TakeAfter(items: seq<Item>, after: Option<(nat, nat)>): seq<Item> {
    match after
    case None => items
    case Some((height, num)) => DropThrough(DropNewer(items, height), height, num)
  }

  function Fetch(t: BlockTables, items: seq<Item>): seq<(nat, Transaction)> {
    if items == [] then []
    else (match Lookup(t.transactionAt, (items[0].height, items[0].num))
          case Some(tx) => [(items[0].height, tx)]
          case None => [])
         + Fetch(t, items[1..])
  }

  function Take<T>(s: seq<T>, n: nat): seq<T> {
    if |s| <= n then s else s[..n]
  }

  function AddressTransactions(db: Tables, address: Address, types: set<nat>, count: nat, fromId: Option<Id>): Page {
    if fromId.Some? && fromId.value !in db.blocks.stored.transactionHN then NoSuchTransaction
    else if address !in db.addresses.addressId then Listed([])
    else
      var id := db.addresses.addressId[address];
      var after := if fromId.Some? then Lookup(db.blocks.stored.transactionHN, fromId.value) else None;
      var stream := HeightNumStream(db.addressTxs.hn, id, SeqNr(db.addressTxs, id));
      Listed(Take(Fetch(db.blocks.stored, TakeAfter(TakeTypes(stream, types), after)), count))
  }

  // ---- what the chain says ----

  /** The transactions the blocks list for an address, newest block first, highest number first. */
  ghost function ItemsIn(chain: Chain, id: nat): seq<Item>
    requires AllListed(chain)
  {
    if chain.Start? then []
    else (if id in chain.update.addressTransactions
          then ItemsOf(chain.Height(), TypeNums(chain.Block().transactions, chain.update.addressTransactions[id])) else [])
         + ItemsIn(chain.below, id)
  }

  /** The block at the height lists its n-th transaction for the address. */
  ghost predicate Touches(chain: Chain, id: nat, height: nat, n: nat) {
    && chain.Grown?
    && if height == chain.Height() then
         && id in chain.update.addressTransactions
         && n < |chain.Block().transactions|
         && chain.Block().transactions[n].id in chain.update.addressTransactions[id]
       else Touches(chain.below, id, height, n)
  }

  /** Strictly descending in (height, number). */
  ghost predicate Before(x: Item, y: Item) {
    x.height > y.height || (x.height == y.height && x.num > y.num)
  }

  ghost predicate Sorted(items: seq<Item>) {
    forall i, j :: 0 <= i < j < |items| ==> Before(items[i], items[j])
  }

  lemma {:induction false} StreamKept(chain: Chain, id: nat, seqNr: nat)
    requires AllListed(chain) && chain.Grown? && seqNr <= Count(chain.below, id)
    ensures HeightNumStream(ReplayLists(chain), id, seqNr) == HeightNumStream(ReplayLists(chain.below), id, seqNr)
  {
    hide EntryPuts, Commit, DistinctIds, ListedInBlock;
    if seqNr > 0 {
      EntryPutAt(chain.below, chain.update, chain.Height(), id, seqNr);
      CommitAt(ReplayLists(chain.below), EntryPuts(chain.below, chain.update, chain.Height()), (id, seqNr));
      StreamKept(chain, id, seqNr - 1);
    }
  }

  lemma {:induction false} StreamIsItemsIn(chain: Chain, id: nat)
    requires AllListed(chain)
    ensures HeightNumStream(ReplayLists(chain), id, Count(chain, id)) == ItemsIn(chain, id)
  {
    hide EntryPuts, Commit, DistinctIds, TypeNums;
    if chain.Grown? {
      var n := Count(chain.below, id);
      StreamIsItemsIn(chain.below, id);
      StreamKept(chain, id, n);
      if id in chain.update.addressTransactions {
        EntryPutAt(chain.below, chain.update, chain.Height(), id, n + 1);
        CommitAt(ReplayLists(chain.below), EntryPuts(chain.below, chain.update, chain.Height()), (id, n + 1));
        assert HeightNumStream(ReplayLists(chain), id, n + 1)
            == ItemsOf(chain.Height(), TypeNums(chain.Block().transactions, chain.update.addressTransactions[id]))
               + HeightNumStream(ReplayLists(chain), id, n);
      }
    }
  }

  // ---- one block ----

  lemma {:induction false} ReversePairAt(txs: seq<Transaction>, nums: seq<nat>, i: nat)
    requires forall k :: 0 <= k < |nums| ==> nums[k] < |txs|
    requires i < |nums|
    ensures var n := nums[|nums| - 1 - i];
            ReversePairs(txs, nums)[i] == (txs[n].typeId, n)
  {
    if i < |nums| - 1 {
      ReversePairAt(txs, nums[1..], i);
    }
  }

  ghost predicate ReversesWithTypes(txs: seq<Transaction>, nums: seq<nat>, r: seq<(nat, nat)>) {
    && |r| == |nums|
    && forall i :: 0 <= i < |r| ==> nums[|r| - 1 - i] < |txs| && r[i] == (txs[nums[|r| - 1 - i]].typeId, nums[|r| - 1 - i])
  }

  lemma TypeNumsReverse(txs: seq<Transaction>, ids: seq<Id>)
    requires DistinctIds(txs)
    requires forall i :: 0 <= i < |ids| ==> ids[i] in TransactionIds(txs)
    ensures ReversesWithTypes(txs, Ascending(NumbersOf(txs, ids)), TypeNums(txs, ids))
  {
    hide TransactionIds, DistinctIds, ReversePairs, Numbered, ReversesWithTypes;
    var nums := Ascending(NumbersOf(txs, ids));
    assert forall i :: 0 <= i < |nums| ==> nums[i] in nums;
    PairsReverse(txs, nums);
  }

  lemma PairsReverse(txs: seq<Transaction>, nums: seq<nat>)
    requires forall k :: 0 <= k < |nums| ==> nums[k] < |txs|
    ensures ReversesWithTypes(txs, nums, ReversePairs(txs, nums))
  {
    forall i: nat | i < |nums| ensures ReversePairs(txs, nums)[i] == (txs[nums[|nums| - 1 - i]].typeId, nums[|nums| - 1 - i]) {
      ReversePairAt(txs, nums, i);
    }
  }

  lemma ReversedMembers(txs: seq<Transaction>, nums: seq<nat>, r: seq<(nat, nat)>, n: nat)
    requires ReversesWithTypes(txs, nums, r) && n < |txs|
    ensures (txs[n].typeId, n) in r <==> n in nums
    ensures forall t: nat :: (t, n) in r ==> t == txs[n].typeId
  {
    if n in nums {
      var i :| 0 <= i < |nums| && nums[i] == n;
      assert r[|nums| - 1 - i] == (txs[n].typeId, n);
    }
  }

  lemma ReversedDescend(txs: seq<Transaction>, nums: seq<nat>, r: seq<(nat, nat)>)
    requires ReversesWithTypes(txs, nums, r) && Increasing(nums)
    ensures forall i, j :: 0 <= i < j < |r| ==> r[i].1 > r[j].1
  {
  }

  lemma TypeNumsDescend(txs: seq<Transaction>, ids: seq<Id>)
    requires DistinctIds(txs)
    requires forall i :: 0 <= i < |ids| ==> ids[i] in TransactionIds(txs)
    ensures var r := TypeNums(txs, ids);
            && (forall i, j :: 0 <= i < j < |r| ==> r[i].1 > r[j].1)
            && (forall t: nat, n: nat :: (t, n) in r <==> n < |txs| && txs[n].id in ids && txs[n].typeId == t)
  {
    hide TransactionIds, DistinctIds, TypeNums, Increasing;
    var nums, r := Ascending(NumbersOf(txs, ids)), TypeNums(txs, ids);
    AscendingIncreases(NumbersOf(txs, ids));
    TypeNumsReverse(txs, ids);
    ReversedDescend(txs, nums, r);
    assert forall t: nat, n: nat :: (t, n) in r ==> n < |txs|;
    hide ReversesWithTypes;
    forall t: nat, n: nat ensures (t, n) in r <==> n < |txs| && txs[n].id in ids && txs[n].typeId == t {
      NumbersOfAre(txs, ids, n);
      if n < |txs| {
        ReversedMembers(txs, nums, r, n);
      }
    }
  }

  lemma NumbersOfAre(txs: seq<Transaction>, ids: seq<Id>, n: nat)
    requires DistinctIds(txs)
    requires forall i :: 0 <= i < |ids| ==> ids[i] in TransactionIds(txs)
    ensures n in NumbersOf(txs, ids) <==> n < |txs| && txs[n].id in ids
  {
    if n < |txs| && txs[n].id in ids {
      NumberedIs(txs, n);
      var i :| 0 <= i < |ids| && ids[i] == txs[n].id;
      assert Numbered(txs)[ids[i]] == n;
    }
  }

  // ---- all blocks ----

  lemma SortedConcat(xs: seq<Item>, ys: seq<Item>)
    requires Sorted(xs) && Sorted(ys)
    requires forall x, y :: x in xs && y in ys ==> Before(x, y)
    ensures Sorted(xs + ys)
  {
    hide Before;
    var all := xs + ys;
    forall i, j | 0 <= i < j < |all| ensures Before(all[i], all[j]) {
      if i < |xs| <= j {
        assert all[i] in xs && all[j] in ys;
      }
    }
  }

  lemma BlockItems(height: nat, txs: seq<Transaction>, ids: seq<Id>)
    requires DistinctIds(txs)
    requires forall i :: 0 <= i < |ids| ==> ids[i] in TransactionIds(txs)
    ensures var xs := ItemsOf(height, TypeNums(txs, ids));
            && Sorted(xs)
            && forall x: Item :: x in xs <==> x.height == height && x.num < |txs| && txs[x.num].id in ids && txs[x.num].typeId == x.typeId
  {
    hide TypeNums, TransactionIds, DistinctIds;
    TypeNumsDescend(txs, ids);
    var xs := ItemsOf(height, TypeNums(txs, ids));
    forall x: Item ensures x in xs <==> x.height == height && (x.typeId, x.num) in TypeNums(txs, ids) {
      if x.height == height && (x.typeId, x.num) in TypeNums(txs, ids) {
        var i :| 0 <= i < |xs| && TypeNums(txs, ids)[i] == (x.typeId, x.num);
        assert xs[i] == x;
      }
    }
  }

  /** The chain's transaction at the place is listed for the address and has the type. */
  ghost predicate ListsItem(chain: Chain, id: nat, x: Item) {
    && Touches(chain, id, x.height, x.num)
    && TransactionIn(chain, x.height, x.num).Some?
    && TransactionIn(chain, x.height, x.num).value.typeId == x.typeId
  }

  /** The listed items are strictly descending and are exactly the transactions listed for the address, with their types. */
  lemma {:induction false} ItemsInExactly(chain: Chain, id: nat)
    requires AllListed(chain)
    ensures Sorted(ItemsIn(chain, id))
    ensures forall x: Item :: x in ItemsIn(chain, id) <==> ListsItem(chain, id, x)
  {
    hide Sorted, TypeNums, DistinctIds;
    if chain.Grown? {
      var top := if id in chain.update.addressTransactions
                 then ItemsOf(chain.Height(), TypeNums(chain.Block().transactions, chain.update.addressTransactions[id])) else [];
      ItemsInExactly(chain.below, id);
      if id in chain.update.addressTransactions {
        BlockItems(chain.Height(), chain.Block().transactions, chain.update.addressTransactions[id]);
      }
      forall x: Item | x in ItemsIn(chain.below, id) ensures x.height < chain.Height() {
        TransactionHeights(chain.below, x.height, x.num);
      }
      NoneSorted();
      SortedConcat(top, ItemsIn(chain.below, id));
    } else {
      NoneSorted();
    }
  }

  lemma NoneSorted()
    ensures Sorted([])
  {
  }

  // ---- filters and cuts of a sorted list ----

  lemma {:induction false} TakeTypesSorted(items: seq<Item>, types: set<nat>)
    requires Sorted(items)
    ensures Sorted(TakeTypes(items, types))
  {
    if items != [] {
      assert Sorted(items[1..]);
      TakeTypesSorted(items[1..], types);
      var rest := TakeTypes(items[1..], types);
      if types == {} || items[0].typeId in types {
        forall y | y in rest ensures Before(items[0], y) {
          assert y in items[1..];
        }
        SortedConcat([items[0]], rest);
      }
    }
  }

  /** In a sorted list the two drops leave exactly what lies strictly below the place. */
  lemma {:induction false} TakeAfterCuts(items: seq<Item>, place: (nat, nat), k: nat)
    requires Sorted(items) && k <= |items|
    requires forall i :: 0 <= i < |items| ==> (Before(Item(place.0, 0, place.1), items[i]) <==> i >= k)
    ensures TakeAfter(items, Some(place)) == items[k..]
  {
    if k > 0 {
      assert Sorted(items[1..]);
      TakeAfterCuts(items[1..], place, k - 1);
      assert items[1..][k - 1..] == items[k..];
      if items[0].height <= place.0 {
        assert DropNewer(items, place.0) == items;
        if |items| > 1 {
          assert Before(items[0], items[1]);
          assert DropNewer(items[1..], place.0) == items[1..];
        }
      }
    } else {
      assert items[0..] == items;
    }
  }

  // ---- reading ----

  /** The transactions at the places of the items. */
  ghost function TransactionsOf(chain: Chain, items: seq<Item>): (r: seq<(nat, Transaction)>)
    requires forall i :: 0 <= i < |items| ==> TransactionIn(chain, items[i].height, items[i].num).Some?
    ensures |r| == |items|
    ensures forall i :: 0 <= i < |r| ==> r[i] == (items[i].height, TransactionIn(chain, items[i].height, items[i].num).value)
  {
    if items == [] then []
    else [(items[0].height, TransactionIn(chain, items[0].height, items[0].num).value)] + TransactionsOf(chain, items[1..])
  }

  lemma {:induction false} FetchesAll(chain: Chain, items: seq<Item>)
    requires ValidChain(chain)
    requires forall i :: 0 <= i < |items| ==> TransactionIn(chain, items[i].height, items[i].num).Some?
    ensures Fetch(Replay(chain), items) == TransactionsOf(chain, items)
  {
    hide ValidChain, Replay, TransactionIn;
    if items != [] {
      StoredTransactions(chain, items[0].height, items[0].num);
      FetchesAll(chain, items[1..]);
    }
  }

  /** The items an unbounded request would list. */
  ghost function Wanted(chain: Chain, id: nat, types: set<nat>): seq<Item>
    requires AllListed(chain)
  {
    TakeTypes(ItemsIn(chain, id), types)
  }

  lemma WantedExactly(chain: Chain, id: nat, types: set<nat>)
    requires AllListed(chain)
    ensures Sorted(Wanted(chain, id, types))
    ensures forall i :: 0 <= i < |Wanted(chain, id, types)| ==>
              var x := Wanted(chain, id, types)[i]; TransactionIn(chain, x.height, x.num).Some?
    ensures forall x: Item :: x in Wanted(chain, id, types) <==> ListsItem(chain, id, x) && (types == {} || x.typeId in types)
  {
    hide Touches, TransactionIn, Sorted, ItemsIn;
    ItemsInExactly(chain, id);
    TakeTypesSorted(ItemsIn(chain, id), types);
    var wanted := Wanted(chain, id, types);
    forall i | 0 <= i < |wanted| ensures TransactionIn(chain, wanted[i].height, wanted[i].num).Some? {
      assert wanted[i] in wanted;
    }
  }

  /** The whole history of an address, filtered by type. */
  ghost function History(chain: Chain, id: nat, types: set<nat>): seq<(nat, Transaction)>
    requires AllListed(chain)
  {
    WantedExactly(chain, id, types);
    TransactionsOf(chain, Wanted(chain, id, types))
  }

  lemma StreamOf(db: Tables, chain: Chain, id: nat)
    requires Stored(db, chain)
    ensures AllListed(chain) && ValidChain(chain) && db.blocks.stored == Replay(chain)
    ensures HeightNumStream(db.addressTxs.hn, id, SeqNr(db.addressTxs, id)) == ItemsIn(chain, id)
  {
    hide AddressesStored, ChainState.StateStored, ChainIndexes.Indexed, IdsKnown, ReplayLists, AllListed, ValidChain, Replay, ItemsIn;
    StreamIsItemsIn(chain, id);
  }

  lemma TakeAfterNone(items: seq<Item>)
    ensures TakeAfter(items, None) == items
  {
  }

  /** How many of the items do not lie below the place. */
  ghost function NotBelow(items: seq<Item>, place: (nat, nat)): (k: nat)
    requires Sorted(items)
    ensures k <= |items|
    ensures forall i :: 0 <= i < |items| ==> (Before(Item(place.0, 0, place.1), items[i]) <==> i >= k)
  {
    if items == [] || Before(Item(place.0, 0, place.1), items[0]) then 0
    else 1 + NotBelow(items[1..], place)
  }

  ghost function FirstOf<T>(s: seq<T>, count: nat): (r: seq<T>)
    ensures r <= s && |r| <= count && (|r| == count || r == s)
  {
    if |s| > count then s[..count] else s
  }

  /** The answer the chain dictates. */
  ghost function Requested(db: Tables, chain: Chain, id: nat, types: set<nat>, count: nat, fromId: Option<Id>): Page
    requires AllListed(chain)
  {
    match fromId
    case None => Listed(FirstOf(History(chain, id, types), count))
    case Some(tx) =>
      match Lookup(db.blocks.stored.transactionHN, tx)
      case None => NoSuchTransaction
      case Some(place) =>
        WantedExactly(chain, id, types);
        Listed(FirstOf(History(chain, id, types)[NotBelow(Wanted(chain, id, types), place)..], count))
  }

  /**
   A page holds the first `count` entries of the history that lie strictly below the place of the given transaction,
   which need not itself concern the address. A transaction that is not on the chain is an error, for an address the store
   does not know as well; the history of such an address is empty.
   */
  lemma PageIs(db: Tables, chain: Chain, address: Address, types: set<nat>, count: nat, fromId: Option<Id>)
    requires Stored(db, chain)
    ensures AllListed(chain)
    ensures AddressTransactions(db, address, types, count, fromId) ==
            if address in db.addresses.addressId then Requested(db, chain, db.addresses.addressId[address], types, count, fromId)
            else if fromId == None || fromId.value in db.blocks.stored.transactionHN then Listed([])
            else NoSuchTransaction
  {
    hide Stored, AllListed, ItemsIn, Sorted, TakeAfter, TransactionIn, Touches, ValidChain, Replay;
    if address in db.addresses.addressId {
      KnownPageIs(db, chain, address, types, count, fromId);
    } else {
      StreamOf(db, chain, 0);
    }
  }

  lemma KnownPageIs(db: Tables, chain: Chain, address: Address, types: set<nat>, count: nat, fromId: Option<Id>)
    requires Stored(db, chain) && address in db.addresses.addressId
    ensures AllListed(chain)
    ensures AddressTransactions(db, address, types, count, fromId) == Requested(db, chain, db.addresses.addressId[address], types, count, fromId)
  {
    hide Stored, AllListed, ItemsIn, Sorted, TakeAfter, TransactionIn, Touches, ValidChain, Replay;
    var id := db.addresses.addressId[address];
    StreamOf(db, chain, id);
    WantedExactly(chain, id, types);
    var wanted := Wanted(chain, id, types);
    match fromId
    case None =>
      TakeAfterNone(wanted);
      FetchesAll(chain, wanted);
    case Some(tx) =>
      match Lookup(db.blocks.stored.transactionHN, tx)
      case None =>
      case Some(place) =>
        var k := NotBelow(wanted, place);
        TakeAfterCuts(wanted, place, k);
        FetchesAll(chain, wanted[k..]);
        assert TransactionsOf(chain, wanted[k..]) == TransactionsOf(chain, wanted)[k..];
  }

  // ---- chaining pages ----

  lemma PlaceOf(chain: Chain, items: seq<Item>, k: nat, id: Id)
    requires Sorted(items) && 0 < k <= |items|
    requires ValidChain(chain)
    requires TransactionIn(chain, items[k - 1].height, items[k - 1].num).Some?
    requires id == TransactionIn(chain, items[k - 1].height, items[k - 1].num).value.id
    ensures id in Replay(chain).transactionHN && NotBelow(items, Replay(chain).transactionHN[id]) == k
  {
    hide ValidChain, Replay, TransactionIn;
    StoredIndex(chain, id, items[k - 1].height, items[k - 1].num);
    var n := NotBelow(items, Replay(chain).transactionHN[id]);
    assert n >= k - 1;
  }

  /** The page after the k-th entry starts with the next one. */
  lemma PageFollows(db: Tables, chain: Chain, address: Address, types: set<nat>, count: nat, k: nat)
    requires Stored(db, chain) && address in db.addresses.addressId && AllListed(chain)
    requires k <= |History(chain, db.addresses.addressId[address], types)|
    ensures var history := History(chain, db.addresses.addressId[address], types);
            AddressTransactions(db, address, types, count, if k == 0 then None else Some(history[k - 1].1.id))
            == Listed(FirstOf(history[k..], count))
  {
    hide Stored, AllListed, AddressTransactions, FirstOf, Sorted, NotBelow, ValidChain, Replay, ItemsIn, TransactionIn;
    var id := db.addresses.addressId[address];
    var history := History(chain, id, types);
    var last := if k == 0 then None else Some(history[k - 1].1.id);
    PageIs(db, chain, address, types, count, last);
    StreamOf(db, chain, id);
    WantedExactly(chain, id, types);
    if k > 0 {
      PlaceOf(chain, Wanted(chain, id, types), k, last.value);
    } else {
      assert history[0..] == history;
    }
  }

  /** What a client collects that keeps asking from the last id it got, until a page is empty. */
  ghost function Collected(db: Tables, address: Address, types: set<nat>, count: nat, fromId: Option<Id>, requests: nat): seq<(nat, Transaction)>
    decreases requests
  {
    if requests == 0 then [] else
    match AddressTransactions(db, address, types, count, fromId)
    case NoSuchTransaction => []
    case Listed(items) =>
      if items == [] then [] else items + Collected(db, address, types, count, Some(items[|items| - 1].1.id), requests - 1)
  }

  /** Paging is lossless: the pages together are the whole filtered history, each transaction once and newest first. */
  lemma {:induction false} PagesComplete(db: Tables, chain: Chain, address: Address, types: set<nat>, count: nat, k: nat, requests: nat)
    requires Stored(db, chain) && address in db.addresses.addressId && AllListed(chain) && count >= 1
    requires k <= |History(chain, db.addresses.addressId[address], types)|
    requires requests > |History(chain, db.addresses.addressId[address], types)| - k
    ensures var history := History(chain, db.addresses.addressId[address], types);
            Collected(db, address, types, count, if k == 0 then None else Some(history[k - 1].1.id), requests) == history[k..]
    decreases requests
  {
    hide Stored, AllListed, AddressTransactions, History;
    var history := History(chain, db.addresses.addressId[address], types);
    PageFollows(db, chain, address, types, count, k);
    var page := FirstOf(history[k..], count);
    if page != [] {
      assert page == history[k..k + |page|];
      assert page[|page| - 1] == history[k + |page| - 1];
      PagesComplete(db, chain, address, types, count, k + |page|, requests - 1);
      assert page + history[k + |page|..] == history[k..];
    }
  }
}
