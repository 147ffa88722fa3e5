/** What a block's transactions do to the state as a difference, and the update of absolute values that a difference becomes. */
module Diffs {
  import opened Common
  import opened Types
  import opened Versions
  import opened Tables
  import opened Batches
  import opened ChainBlocks
  import opened ChainNode
  import opened Snapshots
  import ChainState

  datatype Portfolio = Portfolio(balance: int, lease: LeaseBalance, assets: map<AssetId, int>)

  datatype Diff = Diff(
    transactions: map<Id, (Transaction, set<Address>)>,
    portfolios: map<Address, Portfolio>,
    issuedAssets: map<AssetId, AssetInfo>,
    orderFills: map<Id, VolumeAndFee>,
    leaseState: map<Id, bool>,
    scripts: map<Address, Option<Script>>,
    assetScripts: map<AssetId, Option<Script>>,
    accountData: map<Address, map<string, DataEntry>>,
    sponsorship: map<AssetId, Option<int>>)

  // ---- 64-bit arithmetic ----

  const TWO_TO_63: int := 0x8000_0000_0000_0000
  const TWO_TO_64: int := 0x1_0000_0000_0000_0000

  /** The 64-bit two's complement value of a number. */
  function Wrap(x: int): int {
    var low := x % TWO_TO_64;
    if low < TWO_TO_63 then low else low - TWO_TO_64
  }

  function Plus(x: int, y: int): int { Wrap(x + y) }

  /** safeSum: an overflowing sum is the least value. */
  function SafeSum(x: int, y: int): int {
    if -TWO_TO_63 <= x + y < TWO_TO_63 then x + y else -TWO_TO_63
  }

  function CombineLeases(x: LeaseBalance, y: LeaseBalance): LeaseBalance {
    LeaseBalance(SafeSum(x.incoming, y.incoming), SafeSum(x.outgoing, y.outgoing))
  }

  function CombineFills(x: VolumeAndFee, y: VolumeAndFee): VolumeAndFee {
    VolumeAndFee(Plus(x.volume, y.volume), Plus(x.fee, y.fee))
  }

  // ---- values of the latest state ----

  const NO_LEASES := LeaseBalance(0, 0)
  const NO_FILLS := VolumeAndFee(0, 0)

  function FillOf(value: Option<Value>): VolumeAndFee {
    match value
    case Some(Filled(filled)) => filled
    case _ => NO_FILLS
  }

  function ScriptIn(value: Option<Value>): Option<Script> {
    match value
    case Some(Code(script)) => Some(script)
    case _ => None
  }

  /** What can be asked of the state: by address, or by a key that is not about an address. */
  datatype Item =
    | BalanceOf(address: Address, asset: Option<AssetId>) // None is the native asset
    | LeaseOf(address: Address)
    | ScriptOf(address: Address)
    | DataOf(address: Address, name: string)
    | Keyed(key: VersionKey)

  function KeyOf(ids: map<Address, nat>, item: Item): Option<VersionKey> {
    match item
    case Keyed(key) => if AboutAddress(key) then None else Some(key)
    case _ =>
      if item.address !in ids then None else
      var id := ids[item.address];
      Some(match item
           case BalanceOf(_, None) => EarthsBalance(id)
           case BalanceOf(_, Some(asset)) => AssetBalance(id, asset)
           case LeaseOf(_) => LeaseBalanceOf(id)
           case ScriptOf(_) => AddressScript(id)
           case DataOf(_, name) => Data(id, name))
  }

  /** The latest value of an item; nothing for an unknown address. */
  function LatestItem(db: Tables, item: Item): Option<Value> {
    match KeyOf(db.addresses.addressId, item)
    case None => None
    case Some(key) => LatestValue(db.state, key)
  }

  // ---- the state as a fold of differences ----

  datatype Delta = Delta(diff: Diff, carry: int)

  function BalanceChange(diff: Diff, address: Address, asset: Option<AssetId>): int {
    if address !in diff.portfolios then 0 else
    match asset
    case None => diff.portfolios[address].balance
    case Some(a) => if a in diff.portfolios[address].assets then diff.portfolios[address].assets[a] else 0
  }

  /** What the delta makes of an item that held the given value; None if it does not touch the item. */
  function Effect(delta: Delta, item: Item, held: Option<Value>): Option<Option<Value>> {
    var diff := delta.diff;
    match item
    case BalanceOf(address, asset) =>
      var change := BalanceChange(diff, address, asset);
      if change == 0 then None else Some(Some(Amount(Plus(change, AmountOf(held)))))
    case LeaseOf(address) =>
      if address !in diff.portfolios || diff.portfolios[address].lease == NO_LEASES then None
      else Some(Some(Leases(CombineLeases(LeasesOf(held), diff.portfolios[address].lease))))
    case ScriptOf(address) => if address in diff.scripts then Some(CodeOf(diff.scripts[address])) else None
    case DataOf(address, name) =>
      if address in diff.accountData && name in diff.accountData[address] then Some(Some(Entry(diff.accountData[address][name]))) else None
    case Keyed(AssetInfoOf(asset)) =>
      if asset !in diff.issuedAssets then None else
      Some(Some(Info(match held
                     case Some(Info(older)) => Combine(older, diff.issuedAssets[asset])
                     case _ => diff.issuedAssets[asset])))
    case Keyed(LeaseStatus(lease)) => if lease in diff.leaseState then Some(Some(Active(diff.leaseState[lease]))) else None
    case Keyed(FilledVolumeAndFee(order)) =>
      if order in diff.orderFills then Some(Some(Filled(CombineFills(FillOf(held), diff.orderFills[order])))) else None
    case Keyed(AssetScript(asset)) => if asset in diff.assetScripts then Some(CodeOf(diff.assetScripts[asset])) else None
    case Keyed(SponsorshipOf(asset)) =>
      if asset in diff.sponsorship && diff.sponsorship[asset].Some? then Some(Some(MinFee(diff.sponsorship[asset].value))) else None
    case Keyed(CarryFee) => Some(Some(Amount(delta.carry)))
    case Keyed(_) => None
  }

  function Applied(delta: Delta, item: Item, held: Option<Value>): Option<Value> {
    Effect(delta, item, held).GetOr(held)
  }

  /** The value an item has after all deltas, oldest first: the plain meaning of the state. */
  function Fold(deltas: seq<Delta>, item: Item): Option<Value> {
    if deltas == [] then None
    else Applied(deltas[|deltas| - 1], item, Fold(deltas[..|deltas| - 1], item))
  }

  function SumOfChanges(deltas: seq<Delta>, address: Address, asset: Option<AssetId>): int {
    if deltas == [] then 0
    else SumOfChanges(deltas[..|deltas| - 1], address, asset) + BalanceChange(deltas[|deltas| - 1].diff, address, asset)
  }

  /** A balance is the 64-bit sum of the changes of all blocks. */
  lemma {:induction false} BalanceIsSum(deltas: seq<Delta>, address: Address, asset: Option<AssetId>)
    ensures AmountOf(Fold(deltas, BalanceOf(address, asset))) == Wrap(SumOfChanges(deltas, address, asset))
  {
    if deltas != [] {
      var before, change := deltas[..|deltas| - 1], BalanceChange(deltas[|deltas| - 1].diff, address, asset);
      BalanceIsSum(before, address, asset);
      WrapOnce(SumOfChanges(before, address, asset), change);
    }
  }

  lemma WrapOnce(x: int, y: int)
    ensures Plus(y, Wrap(x)) == Wrap(x + y)
  {
    var k := (Wrap(x) - x) / TWO_TO_64;
    assert Wrap(x) == x + k * TWO_TO_64;
    assert (x + y + k * TWO_TO_64) % TWO_TO_64 == (x + y) % TWO_TO_64;
  }

  /** Items of scripts only ever hold scripts. */
  lemma {:induction false} ScriptsHoldCode(deltas: seq<Delta>, item: Item)
    requires item.ScriptOf? || (item.Keyed? && item.key.AssetScript?)
    ensures Fold(deltas, item).Some? ==> Fold(deltas, item).value.Code?
  {
    if deltas != [] {
      ScriptsHoldCode(deltas[..|deltas| - 1], item);
    }
  }

  // ---- deltas along a chain ----

  ghost predicate Known(ids: map<Address, nat>, id: nat) {
    exists address :: address in ids && ids[address] == id
  }

  /** The changes a block made are the effects of its delta on the values before it. */
  ghost predicate Realized(below: Chain, changes: Changes, delta: Delta, ids: map<Address, nat>) {
    && (forall key :: key in changes && AboutAddress(key) ==> Known(ids, key.addressId))
    && forall item ::
         match KeyOf(ids, item)
         case None => Effect(delta, item, None) == None
         case Some(key) =>
           Effect(delta, item, ValueAt(ChainState.Deltas(below), key, below.Height())) == if key in changes then Some(changes[key]) else None
  }

  /** A rollback finds an address again if its native balance changed or a transaction touched it. */
  predicate RecordsAddress(diff: Diff, address: Address) {
    BalanceChange(diff, address, None) != 0 || exists tx :: tx in diff.transactions && address in diff.transactions[tx].1
  }

  /** The update records exactly these addresses. */
  ghost predicate RecordsDelta(u: Update, diff: Diff, ids: map<Address, nat>) {
    && (forall id :: id in RecordedAddresses(u) ==> Known(ids, id))
    && (forall a :: RecordsAddress(diff, a) ==> a in ids)
    && (forall a :: a in ids ==> (ids[a] in RecordedAddresses(u) <==> RecordsAddress(diff, a)))
  }

  ghost predicate FromDeltas(chain: Chain, deltas: seq<Delta>, ids: map<Address, nat>) {
    && |deltas| == chain.Height()
    && (chain.Grown? ==>
          && Realized(chain.below, chain.changes, deltas[|deltas| - 1], ids)
          && FromDeltas(chain.below, deltas[..|deltas| - 1], ids))
  }

  predicate Touches(diff: Diff, item: Item) {
    Effect(Delta(diff, 0), item, None).Some?
  }

  /** A block changed exactly the keys of the items its difference touches, whatever it made of them. */
  ghost predicate Matched(changes: Changes, diff: Diff, ids: map<Address, nat>) {
    && (forall key :: key in changes && AboutAddress(key) ==> Known(ids, key.addressId))
    && forall item ::
         match KeyOf(ids, item)
         case None => !Touches(diff, item)
         case Some(key) => key in changes <==> Touches(diff, item)
  }

  ghost predicate MatchesDeltas(chain: Chain, deltas: seq<Delta>, ids: map<Address, nat>) {
    && |deltas| == chain.Height()
    && (chain.Grown? ==>
          && Matched(chain.changes, deltas[|deltas| - 1].diff, ids)
          && RecordsDelta(chain.update, deltas[|deltas| - 1].diff, ids)
          && MatchesDeltas(chain.below, deltas[..|deltas| - 1], ids))
  }

  lemma TouchesWhatever(delta: Delta, item: Item, held: Option<Value>)
    ensures Effect(delta, item, held).Some? <==> Touches(delta.diff, item)
  {
  }

  /** The value the chain gives an item is the fold of the deltas. */
  lemma {:induction false} FoldIsValue(chain: Chain, deltas: seq<Delta>, ids: map<Address, nat>, item: Item)
    requires FromDeltas(chain, deltas, ids)
    ensures Fold(deltas, item) ==
            match KeyOf(ids, item)
            case None => None
            case Some(key) => ValueAt(ChainState.Deltas(chain), key, chain.Height())
  {
    hide Effect, KeyOf;
    if chain.Grown? {
      var before := deltas[..|deltas| - 1];
      FoldIsValue(chain.below, before, ids, item);
      match KeyOf(ids, item)
      case None =>
      case Some(key) => LastDelta(chain, key);
    }
  }

  lemma LastDelta(chain: Chain, key: VersionKey)
    requires chain.Grown?
    ensures ValueAt(ChainState.Deltas(chain), key, chain.Height()) ==
            if key in chain.changes then chain.changes[key] else ValueAt(ChainState.Deltas(chain.below), key, chain.below.Height())
  {
    LastOf(ChainState.Deltas(chain.below), chain.changes, key);
  }

  lemma LastOf(below: seq<Changes>, changes: Changes, key: VersionKey)
    ensures ValueAt(below + [changes], key, |below| + 1) == if key in changes then changes[key] else ValueAt(below, key, |below|)
  {
    var all := below + [changes];
    if key in changes {
      assert ChangedAt(all, key, |all|);
    } else {
      SamePrefix(below, all, key, |below|);
      assert !ChangedAt(all, key, |all|);
    }
  }

  /** Giving ids to new addresses later changes nothing. */
  lemma RealizedWithMoreIds(below: Chain, changes: Changes, delta: Delta, ids: map<Address, nat>, more: map<Address, nat>)
    requires Realized(below, changes, delta, ids)
    requires forall address :: address in ids ==> address in more && more[address] == ids[address]
    requires Injective(more)
    ensures Realized(below, changes, delta, more)
  {
    hide Effect, KeyOf, ValueAt;
    forall key | key in changes && AboutAddress(key) ensures Known(more, key.addressId) {
      var address :| address in ids && ids[address] == key.addressId;
    }
    forall item ensures
        match KeyOf(more, item)
        case None => Effect(delta, item, None) == None
        case Some(key) =>
          Effect(delta, item, ValueAt(ChainState.Deltas(below), key, below.Height())) == if key in changes then Some(changes[key]) else None
    {
      KeyWithMoreIds(ids, more, item);
      if KeyOf(ids, item) == None && KeyOf(more, item).Some? {
        var key := KeyOf(more, item).value;
        assert key !in changes;
        NoEffect(delta, item, ValueAt(ChainState.Deltas(below), key, below.Height()));
      }
    }
  }

  lemma KeyWithMoreIds(ids: map<Address, nat>, more: map<Address, nat>, item: Item)
    requires forall address :: address in ids ==> address in more && more[address] == ids[address]
    ensures KeyOf(ids, item).Some? ==> KeyOf(more, item) == KeyOf(ids, item)
    ensures KeyOf(ids, item) == None && KeyOf(more, item).Some? ==>
              !item.Keyed? && item.address !in ids && item.address in more
              && AboutAddress(KeyOf(more, item).value) && KeyOf(more, item).value.addressId == more[item.address]
  {
  }

  lemma NoEffect(delta: Delta, item: Item, held: Option<Value>)
    requires Effect(delta, item, None) == None
    ensures Effect(delta, item, held) == None
  {
  }

  lemma RecordsWithMoreIds(u: Update, diff: Diff, ids: map<Address, nat>, more: map<Address, nat>)
    requires RecordsDelta(u, diff, ids)
    requires forall address :: address in ids ==> address in more && more[address] == ids[address]
    requires Injective(more)
    ensures RecordsDelta(u, diff, more)
  {
    hide RecordedAddresses, RecordsAddress;
    forall id | id in RecordedAddresses(u) ensures Known(more, id) {
      var address :| address in ids && ids[address] == id;
    }
    forall a | a in more && a !in ids ensures more[a] !in RecordedAddresses(u) {
      assert forall address :: address in ids ==> more[address] != more[a];
    }
  }

  lemma {:induction false} FromDeltasWithMoreIds(chain: Chain, deltas: seq<Delta>, ids: map<Address, nat>, more: map<Address, nat>)
    requires FromDeltas(chain, deltas, ids)
    requires forall address :: address in ids ==> address in more && more[address] == ids[address]
    requires Injective(more)
    ensures FromDeltas(chain, deltas, more)
  {
    hide Realized, Injective;
    if chain.Grown? {
      RealizedWithMoreIds(chain.below, chain.changes, deltas[|deltas| - 1], ids, more);
      FromDeltasWithMoreIds(chain.below, deltas[..|deltas| - 1], ids, more);
    }
  }

  lemma MatchedWithMoreIds(changes: Changes, diff: Diff, ids: map<Address, nat>, more: map<Address, nat>)
    requires Matched(changes, diff, ids)
    requires forall address :: address in ids ==> address in more && more[address] == ids[address]
    requires Injective(more)
    ensures Matched(changes, diff, more)
  {
    hide Touches, KeyOf;
    forall key | key in changes && AboutAddress(key) ensures Known(more, key.addressId) {
      var address :| address in ids && ids[address] == key.addressId;
    }
    forall item ensures match KeyOf(more, item)
                        case None => !Touches(diff, item)
                        case Some(key) => key in changes <==> Touches(diff, item)
    {
      KeyWithMoreIds(ids, more, item);
    }
  }

  lemma {:induction false} MatchesWithMoreIds(chain: Chain, deltas: seq<Delta>, ids: map<Address, nat>, more: map<Address, nat>)
    requires MatchesDeltas(chain, deltas, ids)
    requires forall address :: address in ids ==> address in more && more[address] == ids[address]
    requires Injective(more)
    ensures MatchesDeltas(chain, deltas, more)
  {
    hide Matched, RecordsDelta, Injective;
    if chain.Grown? {
      RecordsWithMoreIds(chain.update, deltas[|deltas| - 1].diff, ids, more);
      MatchedWithMoreIds(chain.changes, deltas[|deltas| - 1].diff, ids, more);
      MatchesWithMoreIds(chain.below, deltas[..|deltas| - 1], ids, more);
    }
  }

  lemma {:induction false} FromDeltasUpto(chain: Chain, deltas: seq<Delta>, ids: map<Address, nat>, height: nat)
    requires FromDeltas(chain, deltas, ids) && height <= chain.Height()
    ensures FromDeltas(chain.Upto(height), deltas[..height], ids)
  {
    hide Realized;
    if height < chain.Height() {
      FromDeltasUpto(chain.below, deltas[..|deltas| - 1], ids, height);
      assert deltas[..|deltas| - 1][..height] == deltas[..height];
    } else {
      assert deltas[..height] == deltas;
    }
  }

  lemma {:induction false} MatchesUpto(chain: Chain, deltas: seq<Delta>, ids: map<Address, nat>, height: nat)
    requires MatchesDeltas(chain, deltas, ids) && height <= chain.Height()
    ensures MatchesDeltas(chain.Upto(height), deltas[..height], ids)
  {
    hide Matched, RecordsDelta;
    if height < chain.Height() {
      MatchesUpto(chain.below, deltas[..|deltas| - 1], ids, height);
      assert deltas[..|deltas| - 1][..height] == deltas[..height];
    } else {
      assert deltas[..height] == deltas;
    }
  }
}
