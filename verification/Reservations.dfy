/** Sums of the balances orders require, and the greedy choice of orders to cancel when balances shrink. */
module Reservations {
  import opened Common
  import opened Types

  type Asset = Option<AssetId>

  datatype AssetPair = AssetPair(amountAsset: Asset, priceAsset: Asset)

  /** An order with what is left of it, and the balance that requires by asset. */
  datatype LimitOrder = LimitOrder(id: Id, timestamp: int, ofOwner: bool, pair: AssetPair, expiration: int, isValid: bool, required: map<Asset, int>)

  function Get(amounts: map<Asset, int>, asset: Asset): int {
    if asset in amounts then amounts[asset] else 0
  }

  // ---- sums over active orders ----

  /** What all orders together require of an asset. */
  ghost function Reserved(orders: map<Id, LimitOrder>, asset: Asset): int {
    if orders == map[] then 0 else
    var id :| id in orders;
    Get(orders[id].required, asset) + Reserved(orders - {id}, asset)
  }

  lemma {:induction false} ReservedWithout(orders: map<Id, LimitOrder>, id: Id, asset: Asset)
    requires id in orders
    ensures Reserved(orders, asset) == Get(orders[id].required, asset) + Reserved(orders - {id}, asset)
    decreases |orders|
  {
    var x :| x in orders && Reserved(orders, asset) == Get(orders[x].required, asset) + Reserved(orders - {x}, asset);
    if x != id {
      var rest := orders - {x};
      ReservedWithout(rest, id, asset);
      var both := rest - {id};
      assert both == (orders - {id}) - {x};
      ReservedWithout(orders - {id}, x, asset);
    }
  }

  lemma ReservedWith(orders: map<Id, LimitOrder>, lo: LimitOrder, asset: Asset)
    ensures Reserved(orders[lo.id := lo], asset) == Get(lo.required, asset) + Reserved(orders - {lo.id}, asset)
  {
    var longer := orders[lo.id := lo];
    ReservedWithout(longer, lo.id, asset);
    assert longer - {lo.id} == orders - {lo.id};
  }

  // ---- taking an order's requirements out of a balance ----

  predicate Enough(from: map<Asset, int>, xs: map<Asset, int>) {
    forall asset :: asset in xs ==> xs[asset] == 0 || Get(from, asset) - xs[asset] >= 0
  }

  function Taken(from: map<Asset, int>, xs: map<Asset, int>): map<Asset, int> {
    map asset | asset in from.Keys + xs.Keys && (asset in from || xs[asset] != 0) :: Get(from, asset) - Get(xs, asset)
  }

  /** remove: entries are taken in any order, and the result is the same for all orders. */
  method Remove(from: map<Asset, int>, xs: map<Asset, int>) returns (r: Option<map<Asset, int>>)
    ensures r == if Enough(from, xs) then Some(Taken(from, xs)) else None
  {
    hide Enough, Taken;
    var curr, todo := from, xs.Keys;
    TakenNone(from, xs - todo);
    while todo != {}
      invariant todo <= xs.Keys
      invariant Enough(from, xs - todo) && curr == Taken(from, xs - todo)
    {
      var asset :| asset in todo;
      var amount := xs[asset];
      TakenMore(from, xs, todo, asset);
      if amount != 0 {
        var updated := Get(curr, asset) - amount;
        if updated < 0 {
          return None;
        }
        curr := curr[asset := updated];
      }
      todo := todo - {asset};
    }
    assert xs - todo == xs;
    r := Some(curr);
  }

  lemma TakenNone(from: map<Asset, int>, none: map<Asset, int>)
    requires none == map[]
    ensures Enough(from, none) && Taken(from, none) == from
  {
  }

  lemma TakenMore(from: map<Asset, int>, xs: map<Asset, int>, todo: set<Asset>, asset: Asset)
    requires todo <= xs.Keys && asset in todo && Enough(from, xs - todo)
    ensures var curr, amount := Taken(from, xs - todo), xs[asset];
            && (amount == 0 || Get(curr, asset) - amount >= 0 <==> Enough(from, xs - (todo - {asset})))
            && (Enough(from, xs) ==> Enough(from, xs - (todo - {asset})))
            && Taken(from, xs - (todo - {asset})) == if amount == 0 then curr else curr[asset := Get(curr, asset) - amount]
  {
    var done, more := xs - todo, xs - (todo - {asset});
    assert more == done[asset := xs[asset]];
    TakenOne(from, done, asset, xs[asset]);
    forall a | a in more && Enough(from, xs) ensures more[a] == 0 || Get(from, a) - more[a] >= 0 {
      assert a in xs && xs[a] == more[a];
    }
  }

  lemma TakenOne(from: map<Asset, int>, done: map<Asset, int>, asset: Asset, amount: int)
    requires asset !in done && Enough(from, done)
    ensures var curr := Taken(from, done);
            && (amount == 0 || Get(curr, asset) - amount >= 0 <==> Enough(from, done[asset := amount]))
            && Taken(from, done[asset := amount]) == if amount == 0 then curr else curr[asset := Get(curr, asset) - amount]
  {
    assert Get(Taken(from, done), asset) == Get(from, asset);
    TakenOneMap(from, done, asset, amount);
    hide Taken;
    var more := done[asset := amount];
    if amount == 0 || Get(from, asset) - amount >= 0 {
      forall a | a in more ensures more[a] == 0 || Get(from, a) - more[a] >= 0 {
        assert a != asset ==> a in done;
      }
    } else {
      assert asset in more;
    }
  }

  lemma TakenOneMap(from: map<Asset, int>, done: map<Asset, int>, asset: Asset, amount: int)
    requires asset !in done
    ensures Taken(from, done[asset := amount]) ==
            if amount == 0 then Taken(from, done) else Taken(from, done)[asset := Get(Taken(from, done), asset) - amount]
  {
  }

  // ---- greedy cancellation ----

  function KeepChanged(required: map<Asset, int>, changed: set<Asset>): map<Asset, int> {
    map asset | asset in required && asset in changed :: required[asset]
  }

  /** The orders that still fit, each on top of the earlier ones that do. */
  function Kept(rest: map<Asset, int>, changed: set<Asset>, orders: seq<LimitOrder>): (r: seq<LimitOrder>)
    ensures forall lo :: lo in r ==> lo in orders
    decreases |orders|
  {
    if orders == [] then [] else
    var xs := KeepChanged(orders[0].required, changed);
    if Enough(rest, xs) then [orders[0]] + Kept(Taken(rest, xs), changed, orders[1..])
    else Kept(rest, changed, orders[1..])
  }

  function ToCancel(rest: map<Asset, int>, changed: set<Asset>, orders: seq<LimitOrder>, pending: set<Id>): seq<LimitOrder>
    decreases |orders|
  {
    if orders == [] then [] else
    var xs := KeepChanged(orders[0].required, changed);
    if Enough(rest, xs) then ToCancel(Taken(rest, xs), changed, orders[1..], pending)
    else (if orders[0].id in pending then [] else [orders[0]]) + ToCancel(rest, changed, orders[1..], pending)
  }

  ghost function Sum(orders: seq<LimitOrder>, asset: Asset): int {
    if orders == [] then 0 else Get(orders[0].required, asset) + Sum(orders[1..], asset)
  }

  /** The orders before the i-th that are kept. */
  ghost function KeptBefore(init: map<Asset, int>, changed: set<Asset>, orders: seq<LimitOrder>, i: nat): seq<LimitOrder>
    requires i <= |orders|
  {
    Kept(init, changed, orders[..i])
  }

  /** Cancelled is what is not kept and not already being cancelled. */
  lemma {:induction false} KeptOrCancelled(rest: map<Asset, int>, changed: set<Asset>, orders: seq<LimitOrder>, pending: set<Id>, lo: LimitOrder)
    requires forall i, j :: 0 <= i < j < |orders| ==> orders[i].id != orders[j].id
    requires lo in orders
    ensures lo in ToCancel(rest, changed, orders, pending) <==> lo !in Kept(rest, changed, orders) && lo.id !in pending
    decreases |orders|
  {
    hide Enough, Taken;
    var xs := KeepChanged(orders[0].required, changed);
    var next := if Enough(rest, xs) then Taken(rest, xs) else rest;
    CancelsOnly(next, changed, orders[1..], pending);
    if lo != orders[0] {
      KeptOrCancelled(next, changed, orders[1..], pending, lo);
    }
  }

  lemma {:induction false} CancelsOnly(rest: map<Asset, int>, changed: set<Asset>, orders: seq<LimitOrder>, pending: set<Id>)
    ensures forall lo :: lo in ToCancel(rest, changed, orders, pending) ==> lo in orders
    decreases |orders|
  {
    hide Enough, Taken;
    if orders != [] {
      var xs := KeepChanged(orders[0].required, changed);
      CancelsOnly(if Enough(rest, xs) then Taken(rest, xs) else rest, changed, orders[1..], pending);
    }
  }

  ghost predicate NonNegative(orders: seq<LimitOrder>) {
    forall i, asset :: 0 <= i < |orders| && asset in orders[i].required ==> orders[i].required[asset] >= 0
  }

  /** Sound: the kept orders fit together into every changed balance. */
  lemma {:induction false} KeptFit(rest: map<Asset, int>, orders: seq<LimitOrder>, asset: Asset, changed: set<Asset>)
    requires asset in changed && asset in rest && rest[asset] >= 0
    ensures Sum(Kept(rest, changed, orders), asset) <= rest[asset]
    decreases |orders|
  {
    if orders != [] {
      var xs := KeepChanged(orders[0].required, changed);
      if Enough(rest, xs) {
        assert Get(xs, asset) == Get(orders[0].required, asset);
        KeptFit(Taken(rest, xs), orders[1..], asset, changed);
        var kept := Kept(Taken(rest, xs), changed, orders[1..]);
        assert ([orders[0]] + kept)[1..] == kept;
      } else {
        KeptFit(rest, orders[1..], asset, changed);
      }
    }
  }

  /** The balance left after the kept ones among the first orders. */
  ghost function Left(rest: map<Asset, int>, changed: set<Asset>, orders: seq<LimitOrder>): map<Asset, int>
    decreases |orders|
  {
    if orders == [] then rest else
    var xs := KeepChanged(orders[0].required, changed);
    Left(if Enough(rest, xs) then Taken(rest, xs) else rest, changed, orders[1..])
  }

  lemma {:induction false} LeftIs(rest: map<Asset, int>, changed: set<Asset>, orders: seq<LimitOrder>, asset: Asset)
    requires changed <= rest.Keys && asset in changed
    ensures changed <= Left(rest, changed, orders).Keys
    ensures Get(Left(rest, changed, orders), asset) == Get(rest, asset) - Sum(Kept(rest, changed, orders), asset)
    decreases |orders|
  {
    if orders != [] {
      var xs := KeepChanged(orders[0].required, changed);
      var fits := Enough(rest, xs);
      var next := if fits then Taken(rest, xs) else rest;
      LeftIs(next, changed, orders[1..], asset);
      var later := Kept(next, changed, orders[1..]);
      assert ([orders[0]] + later)[1..] == later;
      assert Get(xs, asset) == Get(orders[0].required, asset);
    }
  }

  lemma {:induction false} KeptSplit(rest: map<Asset, int>, changed: set<Asset>, orders: seq<LimitOrder>, i: nat)
    requires i <= |orders|
    ensures Kept(rest, changed, orders) == Kept(rest, changed, orders[..i]) + Kept(Left(rest, changed, orders[..i]), changed, orders[i..])
    decreases i
  {
    hide Enough, Taken;
    if i == 0 {
      assert orders[..0] == [] && orders[0..] == orders;
    } else {
      var xs := KeepChanged(orders[0].required, changed);
      var next := if Enough(rest, xs) then Taken(rest, xs) else rest;
      KeptSplit(next, changed, orders[1..], i - 1);
      assert orders[..i] == [orders[0]] + orders[1..][..i - 1];
      assert orders[..i][1..] == orders[1..][..i - 1];
      assert orders[i..] == orders[1..][i - 1..];
    }
  }

  /** Tight: an order that is not kept would overdraw some changed balance on top of the kept ones before it. */
  lemma NotKeptOverdraws(rest: map<Asset, int>, changed: set<Asset>, orders: seq<LimitOrder>, i: nat) returns (asset: Asset)
    requires i < |orders| && changed <= rest.Keys
    requires forall j, k :: 0 <= j < k < |orders| ==> orders[j].id != orders[k].id
    requires orders[i] !in Kept(rest, changed, orders)
    ensures asset in changed && asset in orders[i].required && orders[i].required[asset] != 0
    ensures Sum(KeptBefore(rest, changed, orders, i), asset) + orders[i].required[asset] > rest[asset]
  {
    var left, xs := Left(rest, changed, orders[..i]), KeepChanged(orders[i].required, changed);
    KeptSplit(rest, changed, orders, i);
    assert orders[i..][0] == orders[i];
    assert !Enough(left, xs);
    asset :| asset in xs && xs[asset] != 0 && Get(left, asset) - xs[asset] < 0;
    LeftIs(rest, changed, orders[..i], asset);
  }

  /** If all orders fit together, none is cancelled. */
  lemma {:induction false} AllFitNoneCancelled(rest: map<Asset, int>, changed: set<Asset>, orders: seq<LimitOrder>, pending: set<Id>)
    requires NonNegative(orders) && changed <= rest.Keys
    requires forall asset :: asset in changed ==> Sum(orders, asset) <= rest[asset]
    ensures ToCancel(rest, changed, orders, pending) == [] && Kept(rest, changed, orders) == orders
    decreases |orders|
  {
    if orders != [] {
      var xs := KeepChanged(orders[0].required, changed);
      assert NonNegative(orders[1..]);
      forall asset ensures Sum(orders[1..], asset) >= 0 {
        SumNonNegative(orders[1..], asset);
      }
      forall asset | asset in xs ensures Get(rest, asset) - xs[asset] >= 0 {
        assert Sum(orders, asset) == Get(orders[0].required, asset) + Sum(orders[1..], asset);
      }
      AllFitNoneCancelled(Taken(rest, xs), changed, orders[1..], pending);
    }
  }

  lemma {:induction false} SumNonNegative(orders: seq<LimitOrder>, asset: Asset)
    requires NonNegative(orders)
    ensures Sum(orders, asset) >= 0
  {
    if orders != [] {
      assert NonNegative(orders[1..]);
      SumNonNegative(orders[1..], asset);
    }
  }
}
