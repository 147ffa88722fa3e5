/** The actor of one address in the matcher: its active orders, the balance they reserve, and the replies it owes. */
module AddressOrders {
  import opened Common
  import opened Types
  import opened Reservations

  datatype QueueEvent = Placed(id: Id) | Canceled(pair: AssetPair, id: Id)

  datatype Response = OrderAccepted(id: Id) | OrderCanceled(id: Id) | OrderCancelRejected(reason: string)

  /** What the sender of a command gets: an immediate reply, or a promise to wait for. */
  datatype Reply = Now(rejected: bool) | Later(promise: nat)

  datatype Pending = Pending(placement: map<Id, nat>, cancellation: map<Id, nat>, responses: map<nat, Response>, made: nat)

  /** What became of a promise; lost means that a newer promise took its place before it was answered. */
  datatype Fate = ForPlacement(id: Id) | ForCancellation(id: Id) | Answered | Lost

  /** Every promise ever made has exactly one fate, and the maps agree with it. */
  ghost predicate Accounted(p: Pending, fate: map<nat, Fate>) {
    && (forall n: nat :: n in fate <==> n < p.made)
    && (forall id :: id in p.placement ==> p.placement[id] in fate && fate[p.placement[id]] == ForPlacement(id))
    && (forall id :: id in p.cancellation ==> p.cancellation[id] in fate && fate[p.cancellation[id]] == ForCancellation(id))
    && (forall n: nat :: n in fate ==>
          match fate[n]
          case ForPlacement(id) => id in p.placement && p.placement[id] == n
          case ForCancellation(id) => id in p.cancellation && p.cancellation[id] == n
          case Answered => n in p.responses
          case Lost => true)
    && (forall n: nat :: n in p.responses ==> n in fate && fate[n] == Answered)
  }

  /** Remembering a new promise; one already waiting under the same id is lost. */
  ghost function Replaced(fate: map<nat, Fate>, waiting: map<Id, nat>, id: Id): map<nat, Fate> {
    if id in waiting then fate[waiting[id] := Lost] else fate
  }

  lemma CancellationStored(p: Pending, fate: map<nat, Fate>, id: Id)
    requires Accounted(p, fate)
    ensures Accounted(p.(cancellation := p.cancellation[id := p.made], made := p.made + 1),
                      Replaced(fate, p.cancellation, id)[p.made := ForCancellation(id)])
  {
  }

  lemma PlacementStored(p: Pending, fate: map<nat, Fate>, id: Id)
    requires Accounted(p, fate) && id !in p.placement
    ensures Accounted(p.(placement := p.placement[id := p.made], made := p.made + 1), fate[p.made := ForPlacement(id)])
  {
  }

  lemma CancellationAnswered(p: Pending, fate: map<nat, Fate>, id: Id, r: Response)
    requires Accounted(p, fate) && id in p.cancellation
    ensures p.cancellation[id] !in p.responses
    ensures Accounted(p.(cancellation := p.cancellation - {id}, responses := p.responses[p.cancellation[id] := r]),
                      fate[p.cancellation[id] := Answered])
  {
  }

  lemma PlacementAnswered(p: Pending, fate: map<nat, Fate>, id: Id, r: Response)
    requires Accounted(p, fate) && id in p.placement
    ensures p.placement[id] !in p.responses
    ensures Accounted(p.(placement := p.placement - {id}, responses := p.responses[p.placement[id] := r]),
                      fate[p.placement[id] := Answered])
  {
  }

  /** The promise for a placement is answered, if there is one. */
  function Confirmed(p: Pending, id: Id): Pending {
    if id !in p.placement then p
    else p.(placement := p.placement - {id}, responses := p.responses[p.placement[id] := OrderAccepted(id)])
  }

  /** The promise for a cancellation is answered, if there is one. */
  function AnsweredWith(p: Pending, id: Id, r: Response): Pending {
    if id !in p.cancellation then p
    else p.(cancellation := p.cancellation - {id}, responses := p.responses[p.cancellation[id] := r])
  }

  const ALREADY_TERMINATED := OrderCancelRejected("Order already terminated")

  /**
   From `before` to `after` the placements of `confirmed` were answered as accepted and the cancellations in `answers` as
   given, as far as somebody was waiting for them; nothing else was answered and nothing else stopped waiting.
   */
  ghost predicate Replied(before: Pending, after: Pending, confirmed: set<Id>, answers: map<Id, Response>) {
    && after.placement == before.placement - confirmed
    && after.cancellation == before.cancellation - answers.Keys
    && after.made == before.made
    && (forall id :: id in confirmed && id in before.placement
          ==> Lookup(after.responses, before.placement[id]) == Some(OrderAccepted(id)))
    && (forall id :: id in answers && id in before.cancellation
          ==> Lookup(after.responses, before.cancellation[id]) == Some(answers[id]))
    && (forall n: nat :: Lookup(after.responses, n) != Lookup(before.responses, n)
          ==> (exists id :: id in confirmed && Lookup(before.placement, id) == Some(n))
              || (exists id :: id in answers && Lookup(before.cancellation, id) == Some(n)))
  }

  lemma ConfirmedReplies(p: Pending, id: Id)
    ensures Replied(p, Confirmed(p, id), {id}, map[])
  {
    if id !in p.placement {
      assert p.placement - {id} == p.placement;
    } else {
      assert Lookup(p.placement, id) == Some(p.placement[id]);
    }
    assert p.cancellation - {} == p.cancellation;
  }

  lemma NothingReplied(p: Pending)
    ensures Replied(p, p, {}, map[])
  {
    assert p.placement - {} == p.placement && p.cancellation - {} == p.cancellation;
  }

  lemma AnsweredReplies(p: Pending, id: Id, r: Response)
    ensures Replied(p, AnsweredWith(p, id, r), {}, map[id := r])
  {
    if id !in p.cancellation {
      assert p.cancellation - {id} == p.cancellation;
    } else {
      assert Lookup(p.cancellation, id) == Some(p.cancellation[id]);
    }
  }

  /** No promise waits in two places. */
  ghost predicate Apart(p: Pending) {
    && (forall a, b :: a in p.placement && b in p.placement && p.placement[a] == p.placement[b] ==> a == b)
    && (forall a, b :: a in p.cancellation && b in p.cancellation && p.cancellation[a] == p.cancellation[b] ==> a == b)
    && (forall a, b :: a in p.placement && b in p.cancellation ==> p.placement[a] != p.cancellation[b])
  }

  lemma AccountedApart(p: Pending, fate: map<nat, Fate>)
    requires Accounted(p, fate)
    ensures Apart(p)
  {
  }

  /** A promise answered already is not answered again. */
  lemma AnswerStays(p: Pending, q: Pending, r: Pending, confirmed: set<Id>, answers: map<Id, Response>, confirmed': set<Id>, answers': map<Id, Response>, n: nat)
    requires Apart(p) && Replied(p, q, confirmed, answers) && Replied(q, r, confirmed', answers')
    requires (exists id :: id in confirmed && Lookup(p.placement, id) == Some(n)) || (exists id :: id in answers && Lookup(p.cancellation, id) == Some(n))
    ensures Lookup(r.responses, n) == Lookup(q.responses, n)
  {
  }

  lemma PlacementAnsweredOnce(p: Pending, q: Pending, r: Pending, confirmed: set<Id>, answers: map<Id, Response>, confirmed': set<Id>, answers': map<Id, Response>, id: Id)
    requires Apart(p) && Replied(p, q, confirmed, answers) && Replied(q, r, confirmed', answers')
    requires id in confirmed + confirmed' && id in p.placement
    ensures Lookup(r.responses, p.placement[id]) == Some(OrderAccepted(id))
  {
    if id in confirmed {
      assert Lookup(p.placement, id) == Some(p.placement[id]);
      AnswerStays(p, q, r, confirmed, answers, confirmed', answers', p.placement[id]);
    }
  }

  lemma CancellationAnsweredOnce(p: Pending, q: Pending, r: Pending, confirmed: set<Id>, answers: map<Id, Response>, confirmed': set<Id>, answers': map<Id, Response>, id: Id)
    requires Apart(p) && Replied(p, q, confirmed, answers) && Replied(q, r, confirmed', answers')
    requires id in answers' + answers && id in p.cancellation
    ensures Lookup(r.responses, p.cancellation[id]) == Some((answers' + answers)[id])
  {
    if id in answers {
      assert Lookup(p.cancellation, id) == Some(p.cancellation[id]);
      AnswerStays(p, q, r, confirmed, answers, confirmed', answers', p.cancellation[id]);
    }
  }

  lemma OnlyAnswered(p: Pending, q: Pending, r: Pending, confirmed: set<Id>, answers: map<Id, Response>, confirmed': set<Id>, answers': map<Id, Response>, n: nat)
    requires Replied(p, q, confirmed, answers) && Replied(q, r, confirmed', answers')
    requires Lookup(r.responses, n) != Lookup(p.responses, n)
    ensures (exists id :: id in confirmed + confirmed' && Lookup(p.placement, id) == Some(n))
            || (exists id :: id in answers' + answers && Lookup(p.cancellation, id) == Some(n))
  {
    if Lookup(q.responses, n) == Lookup(p.responses, n) {
      if id :| id in confirmed' && Lookup(q.placement, id) == Some(n) {
        assert id in confirmed + confirmed' && Lookup(p.placement, id) == Some(n);
      } else {
        var id :| id in answers' && Lookup(q.cancellation, id) == Some(n);
        assert id in answers' + answers && Lookup(p.cancellation, id) == Some(n);
      }
    } else if id :| id in confirmed && Lookup(p.placement, id) == Some(n) {
      assert id in confirmed + confirmed';
    } else {
      var id :| id in answers && Lookup(p.cancellation, id) == Some(n);
      assert id in answers' + answers;
    }
  }

  /** Replies add up; of two answers to one cancellation the first counts, for nobody waits for the second. */
  lemma RepliedBoth(p: Pending, q: Pending, r: Pending, confirmed: set<Id>, answers: map<Id, Response>, confirmed': set<Id>, answers': map<Id, Response>)
    requires Apart(p) && Replied(p, q, confirmed, answers) && Replied(q, r, confirmed', answers')
    ensures Replied(p, r, confirmed + confirmed', answers' + answers)
  {
    var all := answers' + answers;
    forall id | id in confirmed + confirmed' && id in p.placement ensures Lookup(r.responses, p.placement[id]) == Some(OrderAccepted(id)) {
      PlacementAnsweredOnce(p, q, r, confirmed, answers, confirmed', answers', id);
    }
    forall id | id in all && id in p.cancellation ensures Lookup(r.responses, p.cancellation[id]) == Some(all[id]) {
      CancellationAnsweredOnce(p, q, r, confirmed, answers, confirmed', answers', id);
    }
    hide Lookup;
    forall n: nat | Lookup(r.responses, n) != Lookup(p.responses, n)
      ensures (exists id :: id in confirmed + confirmed' && Lookup(p.placement, id) == Some(n)) || (exists id :: id in all && Lookup(p.cancellation, id) == Some(n))
    {
      OnlyAnswered(p, q, r, confirmed, answers, confirmed', answers', n);
    }
  }

  ghost function LostIn(fate: map<nat, Fate>): set<nat> {
    set n | n in fate && fate[n] == Lost
  }

  // ---- active orders ----

  /** The open volume of every asset is what the active orders require of it. */
  ghost predicate Balanced(orders: map<Id, LimitOrder>, openVolume: map<Asset, int>) {
    forall asset :: Get(openVolume, asset) == Reserved(orders, asset)
  }

  ghost predicate Keyed(orders: map<Id, LimitOrder>) {
    forall id :: id in orders ==> orders[id].id == id
  }

  predicate Earliest(orders: map<Id, LimitOrder>, id: Id) {
    id in orders && forall x :: x in orders ==> orders[id].timestamp <= orders[x].timestamp
  }

  lemma {:induction false} SomeEarliest(orders: map<Id, LimitOrder>) returns (id: Id)
    requires orders != map[]
    ensures Earliest(orders, id)
    decreases |orders|
  {
    id :| id in orders;
    var rest := orders - {id};
    if rest != map[] {
      var other := SomeEarliest(rest);
      if orders[other].timestamp < orders[id].timestamp {
        id := other;
      }
      forall x | x in orders ensures orders[id].timestamp <= orders[x].timestamp {
        assert x in rest || x !in rest;
      }
    } else {
      assert forall x :: x in orders && x != id ==> x in rest;
    }
  }

  ghost predicate ByTimestamp(orders: seq<LimitOrder>) {
    forall i, j :: 0 <= i < j < |orders| ==> orders[i].timestamp <= orders[j].timestamp && orders[i].id != orders[j].id
  }

  /** The sequence has exactly the active orders, oldest first. */
  ghost predicate Lists(orders: map<Id, LimitOrder>, sorted: seq<LimitOrder>) {
    && ByTimestamp(sorted)
    && forall lo :: lo in sorted <==> lo.id in orders && orders[lo.id] == lo
  }

  method SortedByTimestamp(orders: map<Id, LimitOrder>) returns (sorted: seq<LimitOrder>)
    requires Keyed(orders)
    ensures Lists(orders, sorted)
  {
    hide Earliest;
    sorted := [];
    var todo := orders;
    while todo != map[]
      invariant forall id :: id in todo ==> id in orders && todo[id] == orders[id]
      invariant ByTimestamp(sorted)
      invariant forall lo :: lo in sorted <==> lo.id in orders && lo.id !in todo && orders[lo.id] == lo
      invariant forall lo, id :: lo in sorted && id in todo ==> lo.timestamp <= todo[id].timestamp
      decreases |todo|
    {
      ghost var e := SomeEarliest(todo);
      var id :| Earliest(todo, id);
      EarliestIs(todo, id);
      SortedOneMore(sorted, todo[id]);
      sorted := sorted + [todo[id]];
      todo := todo - {id};
    }
  }

  lemma EarliestIs(orders: map<Id, LimitOrder>, id: Id)
    requires Earliest(orders, id)
    ensures id in orders && forall x :: x in orders ==> orders[id].timestamp <= orders[x].timestamp
  {
  }

  lemma SortedOneMore(sorted: seq<LimitOrder>, lo: LimitOrder)
    requires ByTimestamp(sorted)
    requires forall x :: x in sorted ==> x.timestamp <= lo.timestamp && x.id != lo.id
    ensures ByTimestamp(sorted + [lo])
  {
    var all := sorted + [lo];
    forall i, j | 0 <= i < j < |all| ensures all[i].timestamp <= all[j].timestamp && all[i].id != all[j].id {
      assert all[i] in sorted;
    }
  }

  function Cancellations(orders: seq<LimitOrder>): seq<QueueEvent> {
    if orders == [] then [] else [Canceled(orders[0].pair, orders[0].id)] + Cancellations(orders[1..])
  }

  lemma {:induction false} CancellationsMore(orders: seq<LimitOrder>, lo: LimitOrder)
    ensures Cancellations(orders + [lo]) == Cancellations(orders) + [Canceled(lo.pair, lo.id)]
  {
    if orders != [] {
      assert (orders + [lo])[1..] == orders[1..] + [lo];
      CancellationsMore(orders[1..], lo);
    }
  }

  /** The promises after new ones for the cancellations of these orders, made one after the other. */
  ghost function WithCancellations(p: Pending, orders: seq<LimitOrder>): Pending {
    if orders == [] then p else
    var before := WithCancellations(p, orders[..|orders| - 1]);
    before.(cancellation := before.cancellation[orders[|orders| - 1].id := before.made], made := before.made + 1)
  }

  lemma OneMoreCancellation(p: Pending, orders: seq<LimitOrder>, lo: LimitOrder)
    ensures var q := WithCancellations(p, orders);
            WithCancellations(p, orders + [lo]) == q.(cancellation := q.cancellation[lo.id := q.made], made := q.made + 1)
  {
    assert (orders + [lo])[..|orders|] == orders;
  }

  /** Nothing but these cancellations is waited for anew. */
  lemma {:induction false} CancellationsPending(p: Pending, orders: seq<LimitOrder>)
    ensures var after := WithCancellations(p, orders);
            && after.placement == p.placement && after.responses == p.responses && after.made == p.made + |orders|
            && after.cancellation.Keys == p.cancellation.Keys + IdsOf(orders)
            && forall id :: id !in IdsOf(orders) ==> Lookup(after.cancellation, id) == Lookup(p.cancellation, id)
  {
    if orders == [] {
      NobodyWaiting(orders, p.cancellation);
    } else {
      var before, last := orders[..|orders| - 1], orders[|orders| - 1];
      CancellationsPending(p, before);
      hide IdsOf, WaitingFor, WithCancellations;
      assert orders == before + [last];
      OneMoreWaiting(before, last, p.cancellation);
      OneMoreCancellation(p, before, last);
    }
  }

  /** Each of the orders waits under a promise of its own. */
  lemma {:induction false} CancellationWaits(p: Pending, orders: seq<LimitOrder>, i: nat)
    requires i < |orders| && forall k :: i < k < |orders| ==> orders[k].id != orders[i].id
    ensures Lookup(WithCancellations(p, orders).cancellation, orders[i].id) == Some(p.made + i)
  {
    var before, last := orders[..|orders| - 1], orders[|orders| - 1];
    CancellationsPending(p, before);
    hide IdsOf, WithCancellations;
    assert orders == before + [last];
    OneMoreCancellation(p, before, last);
    if i < |before| {
      CancellationWaits(p, before, i);
    }
  }

  ghost function IdsOf(orders: seq<LimitOrder>): set<Id> {
    set lo | lo in orders :: lo.id
  }

  /** The promises that wait for cancellations of these orders. */
  ghost function WaitingFor(orders: seq<LimitOrder>, cancellation: map<Id, nat>): set<nat> {
    set lo | lo in orders && lo.id in cancellation :: cancellation[lo.id]
  }

  lemma NobodyWaiting(none: seq<LimitOrder>, cancellation: map<Id, nat>)
    requires none == []
    ensures IdsOf(none) == {} && WaitingFor(none, cancellation) == {} && Cancellations(none) == []
  {
  }

  lemma OneMoreWaiting(orders: seq<LimitOrder>, lo: LimitOrder, cancellation: map<Id, nat>)
    ensures IdsOf(orders + [lo]) == IdsOf(orders) + {lo.id}
    ensures WaitingFor(orders + [lo], cancellation) == WaitingFor(orders, cancellation) + if lo.id in cancellation then {cancellation[lo.id]} else {}
  {
    assert forall x :: x in orders + [lo] <==> x in orders || x == lo;
  }

  class AddressActor {
    var activeOrders: map<Id, LimitOrder>
    var openVolume: map<Asset, int>
    var expiration: set<Id>
    var pending: Pending
    var latestOrderTs: int
    ghost var fate: map<nat, Fate>

    ghost predicate Valid()
      reads this
    {
      && Keyed(activeOrders)
      && Balanced(activeOrders, openVolume)
      && expiration <= activeOrders.Keys
      && Accounted(pending, fate)
    }

    constructor ()
      ensures Valid() && activeOrders == map[] && LostIn(fate) == {} && pending == Pending(map[], map[], map[], 0)
    {
      activeOrders, openVolume, expiration, latestOrderTs := map[], map[], {}, 0;
      pending, fate := Pending(map[], map[], map[], 0), map[];
    }

    // ---- reservations ----

    method Reserve(lo: LimitOrder)
      requires Keyed(activeOrders)
      requires forall asset :: Get(openVolume, asset) == Reserved(activeOrders - {lo.id}, asset)
      modifies this`activeOrders, this`openVolume
      ensures activeOrders == old(activeOrders)[lo.id := lo]
      ensures Keyed(activeOrders) && Balanced(activeOrders, openVolume)
    {
      ghost var before := activeOrders;
      activeOrders := activeOrders[lo.id := lo];
      var todo := lo.required.Keys;
      while todo != {}
        invariant todo <= lo.required.Keys
        invariant forall asset :: Get(openVolume, asset) ==
                    Reserved(before - {lo.id}, asset) + if asset in lo.required && asset !in todo then lo.required[asset] else 0
        modifies this`openVolume
      {
        var asset :| asset in todo;
        var b := lo.required[asset];
        if b != 0 {
          openVolume := openVolume[asset := Get(openVolume, asset) + b];
        }
        todo := todo - {asset};
      }
      forall asset ensures Get(openVolume, asset) == Reserved(activeOrders, asset) {
        ReservedWith(before, lo, asset);
      }
    }

    method Release(id: Id)
      requires Keyed(activeOrders) && Balanced(activeOrders, openVolume)
      modifies this`openVolume
      ensures forall asset :: Get(openVolume, asset) == Reserved(activeOrders - {id}, asset)
    {
      if id in activeOrders {
        var required := activeOrders[id].required;
        var todo := required.Keys;
        while todo != {}
          invariant todo <= required.Keys
          invariant forall asset :: Get(openVolume, asset) ==
                      Reserved(activeOrders, asset) - if asset in required && asset !in todo then required[asset] else 0
          modifies this`openVolume
        {
          var asset :| asset in todo;
          var b := required[asset];
          if b != 0 {
            openVolume := openVolume[asset := Get(openVolume, asset) - b];
          }
          todo := todo - {asset};
        }
        forall asset ensures Get(openVolume, asset) == Reserved(activeOrders - {id}, asset) {
          ReservedWithout(activeOrders, id, asset);
        }
      } else {
        assert activeOrders - {id} == activeOrders;
      }
    }

    method UpdateTimestamp(newTimestamp: int)
      modifies this`latestOrderTs
      ensures latestOrderTs == if newTimestamp > old(latestOrderTs) then newTimestamp else old(latestOrderTs)
    {
      if newTimestamp > latestOrderTs {
        latestOrderTs := newTimestamp;
      }
    }

    // ---- promises ----

    /** Remembers a promise for the cancellation; an earlier one under the same id is lost. */
    method StoreCanceled(id: Id) returns (promise: nat)
      requires Accounted(pending, fate)
      modifies this`pending, this`fate
      ensures Accounted(pending, fate) && promise == old(pending.made)
      ensures pending == old(pending).(cancellation := old(pending.cancellation)[id := promise], made := promise + 1)
      ensures LostIn(fate) == LostIn(old(fate)) + if id in old(pending.cancellation) then {old(pending.cancellation)[id]} else {}
    {
      CancellationStored(pending, fate, id);
      promise := pending.made;
      fate := Replaced(fate, pending.cancellation, id)[promise := ForCancellation(id)];
      pending := pending.(cancellation := pending.cancellation[id := promise], made := promise + 1);
    }

    method StorePlaced(id: Id) returns (promise: nat)
      requires Accounted(pending, fate) && id !in pending.placement
      modifies this`pending, this`fate
      ensures Accounted(pending, fate) && promise == old(pending.made)
      ensures pending == old(pending).(placement := old(pending.placement)[id := promise], made := promise + 1)
      ensures LostIn(fate) == LostIn(old(fate))
    {
      PlacementStored(pending, fate, id);
      promise := pending.made;
      fate := fate[promise := ForPlacement(id)];
      pending := pending.(placement := pending.placement[id := promise], made := promise + 1);
    }

    /** Answers the promise for a placement, if there is one. It was never answered before. */
    method ConfirmPlacement(id: Id)
      requires Accounted(pending, fate)
      modifies this`pending, this`fate
      ensures Accounted(pending, fate) && LostIn(fate) == LostIn(old(fate))
      ensures id in old(pending.placement) ==> old(pending.placement)[id] !in old(pending.responses)
      ensures pending == Confirmed(old(pending), id)
    {
      if id in pending.placement {
        PlacementAnswered(pending, fate, id, OrderAccepted(id));
        var promise := pending.placement[id];
        fate := fate[promise := Answered];
        pending := pending.(placement := pending.placement - {id}, responses := pending.responses[promise := OrderAccepted(id)]);
      }
    }

    method AnswerCancellation(id: Id, r: Response)
      requires Accounted(pending, fate)
      modifies this`pending, this`fate
      ensures Accounted(pending, fate) && LostIn(fate) == LostIn(old(fate))
      ensures id in old(pending.cancellation) ==> old(pending.cancellation)[id] !in old(pending.responses)
      ensures pending == AnsweredWith(old(pending), id, r)
    {
      if id in pending.cancellation {
        CancellationAnswered(pending, fate, id, r);
        var promise := pending.cancellation[id];
        fate := fate[promise := Answered];
        pending := pending.(cancellation := pending.cancellation - {id}, responses := pending.responses[promise := r]);
      }
    }

    // ---- commands ----

    /** The validator accepts no order whose id is already active. */
    method PlaceOrder(lo: LimitOrder, accepted: bool) returns (reply: Reply, stored: seq<QueueEvent>)
      requires Valid() && (accepted ==> lo.id !in activeOrders)
      modifies this
      ensures Valid() && expiration == old(expiration) && LostIn(fate) == LostIn(old(fate))
      ensures var placed := lo.id !in old(pending.placement) && accepted;
              && activeOrders == (if placed then old(activeOrders)[lo.id := lo] else old(activeOrders))
              && stored == (if placed then [Placed(lo.id)] else [])
              && reply == (if lo.id in old(pending.placement) then Later(old(pending.placement)[lo.id])
                           else if accepted then Later(old(pending.made)) else Now(true))
              && pending == (if placed then old(pending).(placement := old(pending.placement)[lo.id := old(pending.made)], made := old(pending.made) + 1)
                             else old(pending))
    {
      stored := [];
      if lo.id in pending.placement {
        reply := Later(pending.placement[lo.id]);
      } else if !accepted {
        reply := Now(true);
      } else {
        UpdateTimestamp(lo.timestamp);
        assert activeOrders - {lo.id} == activeOrders;
        Reserve(lo);
        var promise := StorePlaced(lo.id);
        reply, stored := Later(promise), [Placed(lo.id)];
      }
    }

    method CancelOrder(id: Id) returns (reply: Reply, stored: seq<QueueEvent>)
      requires Valid()
      modifies this
      ensures Valid() && activeOrders == old(activeOrders) && openVolume == old(openVolume) && LostIn(fate) == LostIn(old(fate))
      ensures if id in old(pending.cancellation) then reply == Later(old(pending.cancellation)[id]) && stored == []
              else if id in activeOrders then reply == Later(old(pending.made)) && stored == [Canceled(activeOrders[id].pair, id)]
              else reply == Now(true) && stored == []
      ensures pending == if stored == [] then old(pending)
                         else old(pending).(cancellation := old(pending.cancellation)[id := old(pending.made)], made := old(pending.made) + 1)
    {
      stored := [];
      if id in pending.cancellation {
        reply := Later(pending.cancellation[id]);
      } else if id in activeOrders {
        var promise := StoreCanceled(id);
        reply, stored := Later(promise), [Canceled(activeOrders[id].pair, id)];
      } else {
        reply := Now(true);
      }
    }

    /** Promises waiting for cancellations of these orders are lost. */
    method StoreAllCanceled(orders: seq<LimitOrder>) returns (stored: seq<QueueEvent>)
      requires Accounted(pending, fate)
      requires forall i, j :: 0 <= i < j < |orders| ==> orders[i].id != orders[j].id
      modifies this`pending, this`fate
      ensures Accounted(pending, fate) && stored == Cancellations(orders)
      ensures pending == WithCancellations(old(pending), orders)
      ensures LostIn(fate) == LostIn(old(fate)) + WaitingFor(orders, old(pending.cancellation))
    {
      hide Accounted, LostIn, IdsOf, WaitingFor;
      stored := [];
      var i := 0;
      NobodyWaiting(orders[..0], pending.cancellation);
      while i < |orders|
        invariant i <= |orders| && Accounted(pending, fate)
        invariant stored == Cancellations(orders[..i])
        invariant pending == WithCancellations(old(pending), orders[..i])
        invariant forall k :: i <= k < |orders| ==> Lookup(pending.cancellation, orders[k].id) == Lookup(old(pending.cancellation), orders[k].id)
        invariant LostIn(fate) == LostIn(old(fate)) + WaitingFor(orders[..i], old(pending.cancellation))
      {
        CancellationsMore(orders[..i], orders[i]);
        OneMoreCancellation(old(pending), orders[..i], orders[i]);
        OneMoreWaiting(orders[..i], orders[i], old(pending.cancellation));
        assert orders[..i + 1] == orders[..i] + [orders[i]];
        assert Lookup(pending.cancellation, orders[i].id) == Lookup(old(pending.cancellation), orders[i].id);
        var promise := StoreCanceled(orders[i].id);
        stored := stored + [Canceled(orders[i].pair, orders[i].id)];
        i := i + 1;
      }
      assert orders[..i] == orders;
    }

    /** Cancels all active orders of a pair; a client already waiting for one of these cancellations is never answered. */
    method CancelAllOrders(pair: Option<AssetPair>) returns (stored: seq<QueueEvent>, ghost orders: seq<LimitOrder>)
      requires Valid()
      modifies this
      ensures Valid() && activeOrders == old(activeOrders) && openVolume == old(openVolume)
      ensures stored == Cancellations(orders) && ByTimestamp(orders)
      ensures pending == WithCancellations(old(pending), orders) && expiration == old(expiration)
      ensures pending.placement == old(pending.placement) && pending.responses == old(pending.responses)
      ensures pending.cancellation.Keys == old(pending.cancellation.Keys) + IdsOf(orders)
      ensures forall lo :: lo in orders <==> lo.id in activeOrders && activeOrders[lo.id] == lo && (pair == None || pair.value == lo.pair)
      ensures LostIn(fate) == LostIn(old(fate)) + WaitingFor(orders, old(pending.cancellation))
    {
      hide Accounted, Balanced, LostIn;
      var all := SortedByTimestamp(activeOrders);
      var chosen := Matching(all, pair);
      MatchingDistinct(all, pair);
      CancellationsPending(pending, chosen);
      stored := StoreAllCanceled(chosen);
      orders := chosen;
    }

    method CancelExpiredOrder(id: Id, now: int) returns (stored: seq<QueueEvent>)
      requires Valid()
      modifies this
      ensures Valid() && activeOrders == old(activeOrders) && openVolume == old(openVolume)
      ensures var expired := id in activeOrders && activeOrders[id].expiration - now <= 50;
              && stored == (if expired then [Canceled(activeOrders[id].pair, id)] else [])
              && expiration == (if id in activeOrders && !expired then old(expiration) + {id} else old(expiration) - {id})
              && pending == (if expired then WithCancellations(old(pending), [activeOrders[id]]) else old(pending))
              && LostIn(fate) == LostIn(old(fate)) + if expired && id in old(pending.cancellation) then {old(pending.cancellation)[id]} else {}
    {
      stored := [];
      expiration := expiration - {id};
      if id in activeOrders {
        var lo := activeOrders[id];
        var rest := if lo.expiration - now > 0 then lo.expiration - now else 0;
        if rest <= EXPIRATION_THRESHOLD {
          var promise := StoreCanceled(id);
          stored := [Canceled(lo.pair, id)];
        } else {
          expiration := expiration + {id};
        }
      }
    }

    /** Cancels the orders that no longer fit into the changed balances, newest first; waiting clients stay served. */
    method BalanceUpdated(changedAssets: set<Asset>, spendableBalance: Asset -> int) returns (stored: seq<QueueEvent>, ghost sorted: seq<LimitOrder>)
      requires Valid()
      modifies this
      ensures Valid() && activeOrders == old(activeOrders) && openVolume == old(openVolume) && LostIn(fate) == LostIn(old(fate))
      ensures Lists(activeOrders, sorted)
      ensures var init := map asset | asset in changedAssets :: spendableBalance(asset);
              var cancelled := ToCancel(init, changedAssets, sorted, old(pending.cancellation).Keys);
              && stored == Cancellations(cancelled)
              && pending == WithCancellations(old(pending), cancelled) && expiration == old(expiration)
              && forall id :: id in old(pending.cancellation) ==> Lookup(pending.cancellation, id) == Lookup(old(pending.cancellation), id)
    {
      hide Accounted, Balanced, LostIn, Lists;
      var init := map asset | asset in changedAssets :: spendableBalance(asset);
      var orders := SortedByTimestamp(activeOrders);
      var toCancel := OrdersToDelete(init, changedAssets, orders, pending.cancellation.Keys);
      ListedDistinct(activeOrders, orders);
      CancelledDistinct(init, changedAssets, orders, pending.cancellation.Keys);
      CancellationsPending(pending, toCancel);
      stored := StoreAllCanceled(toCancel);
      sorted := orders;
    }

    // ---- execution events ----

    method HandleOrderAdded(lo: LimitOrder)
      requires Keyed(activeOrders) && expiration <= activeOrders.Keys && Accounted(pending, fate)
      requires forall asset :: Get(openVolume, asset) == Reserved(activeOrders - {lo.id}, asset)
      modifies this
      ensures Valid() && activeOrders == old(activeOrders)[lo.id := lo] && LostIn(fate) == LostIn(old(fate))
      ensures pending == Confirmed(old(pending), lo.id) && expiration == old(expiration) + {lo.id}
    {
      Reserve(lo);
      ConfirmPlacement(lo.id);
      expiration := expiration + {lo.id};
    }

    method HandleOrderTerminated(lo: LimitOrder)
      requires Keyed(activeOrders) && expiration <= activeOrders.Keys && Accounted(pending, fate)
      requires forall asset :: Get(openVolume, asset) == Reserved(activeOrders - {lo.id}, asset)
      modifies this
      ensures Valid() && activeOrders == old(activeOrders) - {lo.id} && LostIn(fate) == LostIn(old(fate))
      ensures pending == AnsweredWith(old(pending), lo.id, ALREADY_TERMINATED) && expiration == old(expiration) - {lo.id}
    {
      AnswerCancellation(lo.id, ALREADY_TERMINATED);
      expiration := expiration - {lo.id};
      activeOrders := activeOrders - {lo.id};
    }

    method OrderAdded(lo: LimitOrder)
      requires Valid()
      modifies this
      ensures Valid() && activeOrders == (if lo.ofOwner then old(activeOrders)[lo.id := lo] else old(activeOrders))
      ensures pending == (if lo.ofOwner then Confirmed(old(pending), lo.id) else old(pending))
      ensures Replied(old(pending), pending, OwnedBy(lo), map[])
      ensures expiration == (if lo.ofOwner then old(expiration) + {lo.id} else old(expiration))
      ensures LostIn(fate) == LostIn(old(fate))
    {
      ConfirmedReplies(pending, lo.id);
      NothingReplied(pending);
      if lo.ofOwner {
        UpdateTimestamp(lo.timestamp);
        Release(lo.id);
        HandleOrderAdded(lo);
      }
    }

    method HandleOrderExecuted(remaining: LimitOrder)
      requires Valid()
      modifies this
      ensures Valid() && activeOrders == AfterExecution(old(activeOrders), remaining)
      ensures pending == PendingAfterExecution(old(pending), remaining)
      ensures forall id :: id in expiration <==> if remaining.ofOwner && id == remaining.id then remaining.isValid else id in old(expiration)
      ensures LostIn(fate) == LostIn(old(fate))
    {
      if remaining.ofOwner {
        UpdateTimestamp(remaining.timestamp);
        Release(remaining.id);
        if remaining.isValid {
          HandleOrderAdded(remaining);
        } else {
          ConfirmPlacement(remaining.id);
          HandleOrderTerminated(remaining);
        }
      }
    }

    /**
     Both sides are given by what remains of them. A side of the owner that is still valid is active with the requirements of
     the remainder, one that is used up is gone, and all other orders stay. Placements of the owner's sides are confirmed,
     cancellations of used-up ones are refused.
     */
    method OrderExecuted(submitted: LimitOrder, counter: LimitOrder)
      requires Valid()
      modifies this
      ensures Valid() && LostIn(fate) == LostIn(old(fate))
      ensures forall id :: Lookup(activeOrders, id) == if counter.ofOwner && id == counter.id then Remainder(counter)
                                                       else if submitted.ofOwner && id == submitted.id then Remainder(submitted)
                                                       else Lookup(old(activeOrders), id)
      ensures forall id :: id in expiration <==> if counter.ofOwner && id == counter.id then counter.isValid
                                                 else if submitted.ofOwner && id == submitted.id then submitted.isValid
                                                 else id in old(expiration)
      ensures Replied(old(pending), pending, OwnedBy(submitted) + OwnedBy(counter), RefusedFor(counter) + RefusedFor(submitted))
    {
      hide Accounted, Balanced, LostIn, Replied, PendingAfterExecution, Reserved;
      ghost var p := pending;
      AccountedApart(p, fate);
      ExecutionReplies(pending, submitted);
      HandleOrderExecuted(submitted);
      ghost var q := pending;
      AccountedApart(pending, fate);
      ExecutionReplies(pending, counter);
      HandleOrderExecuted(counter);
      RepliedBoth(p, q, pending, OwnedBy(submitted), RefusedFor(submitted), OwnedBy(counter), RefusedFor(counter));
    }

    method OrderCanceled(lo: LimitOrder)
      requires Valid()
      modifies this
      ensures Valid() && activeOrders == old(activeOrders) - {lo.id}
      ensures pending == AnsweredWith(Confirmed(old(pending), lo.id), lo.id, Response.OrderCanceled(lo.id))
      ensures Replied(old(pending), pending, {lo.id}, map[lo.id := Response.OrderCanceled(lo.id)])
      ensures expiration == old(expiration) - {lo.id} && LostIn(fate) == LostIn(old(fate))
    {
      ghost var p := pending;
      AccountedApart(p, fate);
      CanceledReplies(p, lo.id, Response.OrderCanceled(lo.id));
      hide Accounted, Balanced, LostIn, Replied, Apart, Reserved;
      ConfirmPlacement(lo.id);
      AnswerCancellation(lo.id, Response.OrderCanceled(lo.id));
      if lo.id in activeOrders {
        Release(lo.id);
        HandleOrderTerminated(lo);
      } else {
        assert activeOrders - {lo.id} == activeOrders;
      }
    }
  }

  const EXPIRATION_THRESHOLD: int := 50

  /** What an execution makes of the active orders: the remainder stays active as long as it is valid. */
  function AfterExecution(orders: map<Id, LimitOrder>, remaining: LimitOrder): map<Id, LimitOrder> {
    if !remaining.ofOwner then orders
    else if remaining.isValid then orders[remaining.id := remaining]
    else orders - {remaining.id}
  }

  /** Placement is confirmed either way; a cancellation still waiting for an order that is used up is refused. */
  function PendingAfterExecution(p: Pending, remaining: LimitOrder): Pending {
    if !remaining.ofOwner then p
    else if remaining.isValid then Confirmed(p, remaining.id)
    else AnsweredWith(Confirmed(p, remaining.id), remaining.id, ALREADY_TERMINATED)
  }

  ghost function Remainder(remaining: LimitOrder): Option<LimitOrder> {
    if remaining.isValid then Some(remaining) else None
  }

  ghost function OwnedBy(remaining: LimitOrder): set<Id> {
    if remaining.ofOwner then {remaining.id} else {}
  }

  ghost function RefusedFor(remaining: LimitOrder): map<Id, Response> {
    if remaining.ofOwner && !remaining.isValid then map[remaining.id := OrderCancelRejected("Order already terminated")] else map[]
  }

  lemma ExecutionReplies(p: Pending, remaining: LimitOrder)
    requires Apart(p)
    ensures Replied(p, PendingAfterExecution(p, remaining), OwnedBy(remaining), RefusedFor(remaining))
  {
    if remaining.ofOwner {
      hide Replied, Confirmed, AnsweredWith, Apart;
      ConfirmedReplies(p, remaining.id);
      if !remaining.isValid {
        CanceledReplies(p, remaining.id, OrderCancelRejected("Order already terminated"));
      }
    } else {
      NothingReplied(p);
    }
  }

  lemma CanceledReplies(p: Pending, id: Id, r: Response)
    requires Apart(p)
    ensures Replied(p, AnsweredWith(Confirmed(p, id), id, r), {id}, map[id := r])
  {
    hide Replied, Confirmed, AnsweredWith, Apart;
    var q := Confirmed(p, id);
    ConfirmedReplies(p, id);
    AnsweredReplies(q, id, r);
    RepliedBoth(p, q, AnsweredWith(q, id, r), {id}, map[], {}, map[id := r]);
    assert {id} + {} == {id} && map[id := r] + map[] == map[id := r];
  }

  function Matching(orders: seq<LimitOrder>, pair: Option<AssetPair>): (r: seq<LimitOrder>)
    ensures forall lo :: lo in r <==> lo in orders && (pair == None || pair.value == lo.pair)
  {
    if orders == [] then []
    else (if pair == None || pair.value == orders[0].pair then [orders[0]] else []) + Matching(orders[1..], pair)
  }

  lemma {:induction false} MatchingDistinct(orders: seq<LimitOrder>, pair: Option<AssetPair>)
    requires ByTimestamp(orders)
    ensures ByTimestamp(Matching(orders, pair))
  {
    if orders != [] {
      assert ByTimestamp(orders[1..]);
      MatchingDistinct(orders[1..], pair);
      OneBefore(orders[0], orders[1..], Matching(orders[1..], pair));
    }
  }

  lemma OneBefore(lo: LimitOrder, rest: seq<LimitOrder>, chosen: seq<LimitOrder>)
    requires ByTimestamp([lo] + rest) && ByTimestamp(chosen)
    requires forall x :: x in chosen ==> x in rest
    ensures ByTimestamp([lo] + chosen)
  {
    var all := [lo] + chosen;
    forall i, j | 0 <= i < j < |all| ensures all[i].timestamp <= all[j].timestamp && all[i].id != all[j].id {
      assert all[j] == chosen[j - 1];
      if i == 0 {
        assert all[j] in chosen;
        var k :| 0 <= k < |rest| && rest[k] == all[j];
        var whole := [lo] + rest;
        assert whole[0].timestamp <= whole[k + 1].timestamp && whole[0].id != whole[k + 1].id;
      } else {
        assert all[i] == chosen[i - 1];
      }
    }
  }

  lemma ListedDistinct(orders: map<Id, LimitOrder>, sorted: seq<LimitOrder>)
    requires Lists(orders, sorted)
    ensures ByTimestamp(sorted)
  {
  }

  /** Cancelled orders are different ones, and none of them is already being cancelled. */
  lemma {:induction false} CancelledDistinct(rest: map<Asset, int>, changed: set<Asset>, orders: seq<LimitOrder>, pendingIds: set<Id>)
    requires ByTimestamp(orders)
    ensures ByTimestamp(ToCancel(rest, changed, orders, pendingIds))
    ensures forall lo :: lo in ToCancel(rest, changed, orders, pendingIds) ==> lo in orders && lo.id !in pendingIds
    decreases |orders|
  {
    hide Enough, Taken;
    if orders != [] {
      var xs := KeepChanged(orders[0].required, changed);
      var next := if Enough(rest, xs) then Taken(rest, xs) else rest;
      assert ByTimestamp(orders[1..]);
      CancelledDistinct(next, changed, orders[1..], pendingIds);
      OneBefore(orders[0], orders[1..], ToCancel(next, changed, orders[1..], pendingIds));
    }
  }

  /** ordersToDelete: folds over the orders, taking each one's requirements out of the balance if they fit. */
  method OrdersToDelete(init: map<Asset, int>, changed: set<Asset>, orders: seq<LimitOrder>, pendingIds: set<Id>) returns (toDelete: seq<LimitOrder>)
    ensures toDelete == ToCancel(init, changed, orders, pendingIds)
  {
    hide Enough, Taken;
    toDelete := [];
    var restBalance, i := init, 0;
    while i < |orders|
      invariant i <= |orders|
      invariant ToCancel(init, changed, orders, pendingIds) == toDelete + ToCancel(restBalance, changed, orders[i..], pendingIds)
    {
      assert orders[i..][0] == orders[i] && orders[i..][1..] == orders[i + 1..];
      var updated := Remove(restBalance, KeepChanged(orders[i].required, changed));
      if updated.Some? {
        restBalance := updated.value;
      } else if orders[i].id !in pendingIds {
        toDelete := toDelete + [orders[i]];
      }
      i := i + 1;
    }
  }
}
