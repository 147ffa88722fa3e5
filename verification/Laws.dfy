/**
 What the fold of differences means, kind by kind: balances and fills are 64-bit sums, lease balances saturating sums, the info of an
 asset a sum of quantities and a conjunction, and everything else is what was set last.
 */
module Laws {
  import opened Common
  import opened Types
  import opened Snapshots
  import opened Diffs

  predicate In64Bits(x: int) {
    -0x8000_0000_0000_0000 <= x < 0x8000_0000_0000_0000
  }

  /** A 64-bit number that differs from the sum by a multiple of 2 to the 64th: the sum itself if that fits. */
  ghost predicate Is64BitSum(x: int, sum: int) {
    In64Bits(x) && (x - sum) % 0x1_0000_0000_0000_0000 == 0 && (In64Bits(sum) ==> x == sum)
  }

  lemma WrapIs64Bits(sum: int)
    ensures Is64BitSum(Wrap(sum), sum)
  {
    assert (sum % 0x1_0000_0000_0000_0000 - sum) % 0x1_0000_0000_0000_0000 == 0;
  }

  // ---- balances ----

  /** A balance is the 64-bit sum of the changes of all blocks. */
  lemma BalanceIn64Bits(deltas: seq<Delta>, address: Address, asset: Option<AssetId>)
    ensures Is64BitSum(AmountOf(Fold(deltas, BalanceOf(address, asset))), SumOfChanges(deltas, address, asset))
  {
    BalanceIsSum(deltas, address, asset);
    WrapIs64Bits(SumOfChanges(deltas, address, asset));
  }

  // ---- order fills ----

  function VolumeFilled(deltas: seq<Delta>, order: Id): int {
    if deltas == [] then 0 else
    var fills := deltas[|deltas| - 1].diff.orderFills;
    VolumeFilled(deltas[..|deltas| - 1], order) + if order in fills then fills[order].volume else 0
  }

  function FeesPaid(deltas: seq<Delta>, order: Id): int {
    if deltas == [] then 0 else
    var fills := deltas[|deltas| - 1].diff.orderFills;
    FeesPaid(deltas[..|deltas| - 1], order) + if order in fills then fills[order].fee else 0
  }

  lemma {:induction false} FillWraps(deltas: seq<Delta>, order: Id)
    ensures var filled := FillOf(Fold(deltas, Keyed(FilledVolumeAndFee(order))));
            filled.volume == Wrap(VolumeFilled(deltas, order)) && filled.fee == Wrap(FeesPaid(deltas, order))
  {
    if deltas != [] {
      var before, fills := deltas[..|deltas| - 1], deltas[|deltas| - 1].diff.orderFills;
      FillWraps(before, order);
      if order in fills {
        WrapOnce(VolumeFilled(before, order), fills[order].volume);
        WrapOnce(FeesPaid(before, order), fills[order].fee);
      }
    }
  }

  /** Volume and fee of an order are the 64-bit sums of the volumes and of the fees of all its fills. */
  lemma FillIsSum(deltas: seq<Delta>, order: Id)
    ensures var filled := FillOf(Fold(deltas, Keyed(FilledVolumeAndFee(order))));
            && Is64BitSum(filled.volume, VolumeFilled(deltas, order))
            && Is64BitSum(filled.fee, FeesPaid(deltas, order))
  {
    FillWraps(deltas, order);
    WrapIs64Bits(VolumeFilled(deltas, order));
    WrapIs64Bits(FeesPaid(deltas, order));
  }

  // ---- lease balances ----

  function LeaseChange(diff: Diff, address: Address): LeaseBalance {
    if address in diff.portfolios then diff.portfolios[address].lease else LeaseBalance(0, 0)
  }

  function LeasedIn(deltas: seq<Delta>, address: Address): int {
    if deltas == [] then 0
    else LeasedIn(deltas[..|deltas| - 1], address) + LeaseChange(deltas[|deltas| - 1].diff, address).incoming
  }

  function LeasedOut(deltas: seq<Delta>, address: Address): int {
    if deltas == [] then 0
    else LeasedOut(deltas[..|deltas| - 1], address) + LeaseChange(deltas[|deltas| - 1].diff, address).outgoing
  }

  /** A lease balance is added to; a sum that does not fit into 64 bits becomes the least number. */
  function Saturated(sum: int): int {
    if In64Bits(sum) then sum else -0x8000_0000_0000_0000
  }

  /** One block adds its changes to both lease balances. */
  lemma LeaseStep(deltas: seq<Delta>, delta: Delta, address: Address)
    ensures var before, after := LeasesOf(Fold(deltas, LeaseOf(address))), LeasesOf(Fold(deltas + [delta], LeaseOf(address)));
            var change := LeaseChange(delta.diff, address);
            && (In64Bits(before.incoming) ==> after.incoming == Saturated(before.incoming + change.incoming))
            && (In64Bits(before.outgoing) ==> after.outgoing == Saturated(before.outgoing + change.outgoing))
  {
    assert (deltas + [delta])[..|deltas|] == deltas;
  }

  /** 64-bit numbers, and the sums of the changes of all blocks as long as none of these sums overflowed. */
  ghost predicate AreLeaseSums(leases: LeaseBalance, deltas: seq<Delta>, address: Address) {
    && In64Bits(leases.incoming) && In64Bits(leases.outgoing)
    && ((forall k :: 0 <= k <= |deltas| ==> In64Bits(LeasedIn(deltas[..k], address))) ==> leases.incoming == LeasedIn(deltas, address))
    && ((forall k :: 0 <= k <= |deltas| ==> In64Bits(LeasedOut(deltas[..k], address))) ==> leases.outgoing == LeasedOut(deltas, address))
  }

  lemma {:induction false} LeasesAreSums(deltas: seq<Delta>, address: Address)
    ensures AreLeaseSums(LeasesOf(Fold(deltas, LeaseOf(address))), deltas, address)
  {
    if deltas != [] {
      var before, delta := deltas[..|deltas| - 1], deltas[|deltas| - 1];
      assert deltas == before + [delta] && deltas[..|deltas|] == deltas;
      assert forall k :: 0 <= k <= |before| ==> before[..k] == deltas[..k];
      LeasesAreSums(before, address);
      LeaseStep(before, delta, address);
    }
  }

  // ---- the info of assets ----

  function QuantityIssued(deltas: seq<Delta>, asset: AssetId): int {
    if deltas == [] then 0 else
    var issued := deltas[|deltas| - 1].diff.issuedAssets;
    QuantityIssued(deltas[..|deltas| - 1], asset) + if asset in issued then issued[asset].volume else 0
  }

  ghost predicate EverIssued(deltas: seq<Delta>, asset: AssetId) {
    exists i :: 0 <= i < |deltas| && asset in deltas[i].diff.issuedAssets
  }

  /** Nothing issued, reissued or burnt closed the asset for reissue. */
  ghost predicate NeverClosed(deltas: seq<Delta>, asset: AssetId) {
    forall i :: 0 <= i < |deltas| && asset in deltas[i].diff.issuedAssets ==> deltas[i].diff.issuedAssets[asset].isReissuable
  }

  /** An asset's volume is the sum of all quantities, and it can be reissued as long as nothing closed it. */
  lemma {:induction false} AssetInfoIs(deltas: seq<Delta>, asset: AssetId)
    ensures var info := Fold(deltas, Keyed(AssetInfoOf(asset)));
            && (!EverIssued(deltas, asset) ==> info == None)
            && (EverIssued(deltas, asset) ==>
                  info.Some? && info.value.Info?
                  && info.value.info.volume == QuantityIssued(deltas, asset)
                  && (info.value.info.isReissuable <==> NeverClosed(deltas, asset)))
    ensures !EverIssued(deltas, asset) ==> QuantityIssued(deltas, asset) == 0
  {
    if deltas != [] {
      var before, last := deltas[..|deltas| - 1], |deltas| - 1;
      AssetInfoIs(before, asset);
      assert forall i :: 0 <= i < last ==> before[i] == deltas[i];
      assert EverIssued(deltas, asset) <==> EverIssued(before, asset) || asset in deltas[last].diff.issuedAssets;
      assert NeverClosed(deltas, asset) <==>
             NeverClosed(before, asset) && (asset in deltas[last].diff.issuedAssets ==> deltas[last].diff.issuedAssets[asset].isReissuable);
    }
  }

  // ---- what was set last ----

  /** Blocks that do not touch an item leave it. */
  lemma {:induction false} UntouchedSince(deltas: seq<Delta>, item: Item, i: nat)
    requires i <= |deltas| && forall j :: i <= j < |deltas| ==> !Touches(deltas[j].diff, item)
    ensures Fold(deltas, item) == Fold(deltas[..i], item)
  {
    if i < |deltas| {
      var before := deltas[..|deltas| - 1];
      UntouchedSince(before, item, i);
      assert before[..i] == deltas[..i];
      TouchesWhatever(deltas[|deltas| - 1], item, Fold(before, item));
    } else {
      assert deltas[..i] == deltas;
    }
  }

  /** What the last block that touched an item made of it is what the item holds. */
  lemma TouchedLast(deltas: seq<Delta>, item: Item, i: nat)
    requires i < |deltas| && forall j :: i < j < |deltas| ==> !Touches(deltas[j].diff, item)
    ensures Fold(deltas, item) == Applied(deltas[i], item, Fold(deltas[..i], item))
  {
    UntouchedSince(deltas, item, i + 1);
    assert deltas[..i + 1][..i] == deltas[..i];
  }

  lemma ScriptIsLast(deltas: seq<Delta>, a: Address, i: nat)
    requires i < |deltas| && a in deltas[i].diff.scripts && forall j :: i < j < |deltas| ==> a !in deltas[j].diff.scripts
    ensures Fold(deltas, ScriptOf(a)) == match deltas[i].diff.scripts[a] case None => None case Some(script) => Some(Code(script))
    ensures ScriptIn(Fold(deltas, ScriptOf(a))) == deltas[i].diff.scripts[a]
  {
    TouchedLast(deltas, ScriptOf(a), i);
  }

  lemma AssetScriptIsLast(deltas: seq<Delta>, asset: AssetId, i: nat)
    requires i < |deltas| && asset in deltas[i].diff.assetScripts && forall j :: i < j < |deltas| ==> asset !in deltas[j].diff.assetScripts
    ensures Fold(deltas, Keyed(AssetScript(asset))) == match deltas[i].diff.assetScripts[asset] case None => None case Some(script) => Some(Code(script))
    ensures ScriptIn(Fold(deltas, Keyed(AssetScript(asset)))) == deltas[i].diff.assetScripts[asset]
  {
    TouchedLast(deltas, Keyed(AssetScript(asset)), i);
  }

  ghost predicate SetsEntry(diff: Diff, a: Address, name: string) {
    a in diff.accountData && name in diff.accountData[a]
  }

  lemma DataIsLast(deltas: seq<Delta>, a: Address, name: string, i: nat)
    requires i < |deltas| && SetsEntry(deltas[i].diff, a, name) && forall j :: i < j < |deltas| ==> !SetsEntry(deltas[j].diff, a, name)
    ensures Fold(deltas, DataOf(a, name)) == Some(Entry(deltas[i].diff.accountData[a][name]))
  {
    TouchedLast(deltas, DataOf(a, name), i);
  }

  lemma LeaseStatusIsLast(deltas: seq<Delta>, lease: Id, i: nat)
    requires i < |deltas| && lease in deltas[i].diff.leaseState && forall j :: i < j < |deltas| ==> lease !in deltas[j].diff.leaseState
    ensures Fold(deltas, Keyed(LeaseStatus(lease))) == Some(Active(deltas[i].diff.leaseState[lease]))
  {
    TouchedLast(deltas, Keyed(LeaseStatus(lease)), i);
  }

  ghost predicate Sponsors(diff: Diff, asset: AssetId) {
    asset in diff.sponsorship && diff.sponsorship[asset].Some?
  }

  lemma SponsorshipIsLast(deltas: seq<Delta>, asset: AssetId, i: nat)
    requires i < |deltas| && Sponsors(deltas[i].diff, asset) && forall j :: i < j < |deltas| ==> !Sponsors(deltas[j].diff, asset)
    ensures Fold(deltas, Keyed(SponsorshipOf(asset))) == Some(MinFee(deltas[i].diff.sponsorship[asset].value))
  {
    TouchedLast(deltas, Keyed(SponsorshipOf(asset)), i);
  }

  /** The carry fee is the last block's. */
  lemma CarryFeeIsLast(deltas: seq<Delta>)
    requires deltas != []
    ensures AmountOf(Fold(deltas, Keyed(CarryFee))) == deltas[|deltas| - 1].carry
  {
  }

  /** What no block touched is not there. */
  lemma NeverTouched(deltas: seq<Delta>, item: Item)
    requires forall j :: 0 <= j < |deltas| ==> !Touches(deltas[j].diff, item)
    ensures Fold(deltas, item) == None
  {
    UntouchedSince(deltas, item, 0);
  }

  lemma ScriptNeverSet(deltas: seq<Delta>, a: Address)
    requires forall j :: 0 <= j < |deltas| ==> a !in deltas[j].diff.scripts
    ensures Fold(deltas, ScriptOf(a)) == None && ScriptIn(Fold(deltas, ScriptOf(a))) == None
  {
    NeverTouched(deltas, ScriptOf(a));
  }

  lemma AssetScriptNeverSet(deltas: seq<Delta>, asset: AssetId)
    requires forall j :: 0 <= j < |deltas| ==> asset !in deltas[j].diff.assetScripts
    ensures Fold(deltas, Keyed(AssetScript(asset))) == None && ScriptIn(Fold(deltas, Keyed(AssetScript(asset)))) == None
  {
    NeverTouched(deltas, Keyed(AssetScript(asset)));
  }

  lemma DataNeverSet(deltas: seq<Delta>, a: Address, name: string)
    requires forall j :: 0 <= j < |deltas| ==> !SetsEntry(deltas[j].diff, a, name)
    ensures Fold(deltas, DataOf(a, name)) == None
  {
    NeverTouched(deltas, DataOf(a, name));
  }

  lemma LeaseStatusNeverSet(deltas: seq<Delta>, lease: Id)
    requires forall j :: 0 <= j < |deltas| ==> lease !in deltas[j].diff.leaseState
    ensures Fold(deltas, Keyed(LeaseStatus(lease))) == None
  {
    NeverTouched(deltas, Keyed(LeaseStatus(lease)));
  }

  lemma SponsorshipNeverSet(deltas: seq<Delta>, asset: AssetId)
    requires forall j :: 0 <= j < |deltas| ==> !Sponsors(deltas[j].diff, asset)
    ensures Fold(deltas, Keyed(SponsorshipOf(asset))) == None
  {
    NeverTouched(deltas, Keyed(SponsorshipOf(asset)));
  }
}
