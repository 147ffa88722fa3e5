/** Runs of the matcher's actor and of its queue on which an answer is lost and events are skipped. */
module FailureRuns {
  import opened Common
  import opened Types
  import opened Reservations
  import opened AddressOrders
  import opened LocalQueue

  // ---- a lost answer ----

  /** An order that sells 7 of an asset for the native one and expires at 1000. */
  const ORDER := LimitOrder([5], 0, true, AssetPair(Some([11]), None), 1000, true, map[Some([11]) := 7])

  lemma OnlyOrder(orders: seq<LimitOrder>)
    requires ByTimestamp(orders) && forall lo :: lo in orders <==> lo == ORDER
    ensures orders == [ORDER]
  {
    assert ORDER in orders;
    forall i | 0 <= i < |orders| ensures orders[i] == ORDER {
      assert orders[i] in orders;
    }
    assert |orders| > 1 ==> orders[0].id != orders[1].id;
  }

  /** What is pending once the client waits under promise 1, and once the order is cancelled again. */
  const WAITING := Pending(map[[5] := 0], map[[5] := 1], map[], 2)

  lemma CancelledTwice()
    ensures WithCancellations(WAITING, [ORDER]) == Pending(map[[5] := 0], map[[5] := 2], map[], 3)
    ensures WaitingFor([ORDER], map[[5] := 1]) == {1}
  {
    OneMoreCancellation(WAITING, [], ORDER);
    assert [] + [ORDER] == [ORDER];
    OneMoreWaiting([], ORDER, map[[5] := 1]);
    NobodyWaiting([], map[[5] := 1]);
  }

  lemma FinallyAnswered()
    ensures AnsweredWith(Confirmed(Pending(map[[5] := 0], map[[5] := 2], map[], 3), [5]), [5], OrderCanceled([5])).responses ==
            map[0 := OrderAccepted([5]), 2 := OrderCanceled([5])]
  {
  }

  /** Up to the second command that cancels the order. */
  method Wait() returns (actor: AddressActor, placed: Reply, waiting: Reply)
    ensures fresh(actor) && actor.Valid() && actor.activeOrders == map[[5] := ORDER] && actor.pending == WAITING && LostIn(actor.fate) == {}
    ensures placed == Later(0) && waiting == Later(1)
  {
    hide Balanced, Accounted, LostIn;
    actor := new AddressActor();
    var events;
    placed, events := actor.PlaceOrder(ORDER, true);
    waiting, events := actor.CancelOrder(ORDER.id);
  }

  /**
   A client waits for the cancellation of its order when the orders are all cancelled, or the order expires. The second promise takes
   the place of the first: when the order is cancelled, placement and second promise are answered, and the client waits forever.
   */
  method LostAnswer(expires: bool) returns (placed: Reply, waiting: Reply, responses: map<nat, Response>, ghost lost: set<nat>)
    ensures placed == Later(0) && waiting == Later(1)
    ensures responses == map[0 := OrderAccepted([5]), 2 := OrderCanceled([5])] && lost == {1}
  {
    hide Balanced, Accounted, LostIn, WithCancellations, WaitingFor, Confirmed, AnsweredWith, IdsOf, Cancellations, ByTimestamp;
    var actor;
    actor, placed, waiting := Wait();
    CancelledTwice();
    var events;
    if expires {
      events := actor.CancelExpiredOrder(ORDER.id, ORDER.expiration);
    } else {
      ghost var orders;
      events, orders := actor.CancelAllOrders(None);
      OnlyOrder(orders);
    }
    FinallyAnswered();
    actor.OrderCanceled(ORDER);
    responses, lost := actor.pending.responses, LostIn(actor.fate);
  }

  // ---- skipped events ----

  const FIRST := Event(10, "a")
  const SECOND := Event(11, "b")
  const THIRD := Event(12, "c")

  /**
   A store is opened on three events, of which the consumer has seen none, and the first is dropped: what the consumer then reads from
   disk leaves a gap. LocalMatcherQueue drops up to the offset its consumer starts at, for which DropUntil keeps the store valid.
   */
  method SkippedEvent() returns (read: seq<Delivery>)
    ensures read == [Delivery(1, SECOND), Delivery(2, THIRD)] && Expected(0, read) == None
  {
    hide ReadFrom, Expected;
    var disk := map[0 := FIRST, 1 := SECOND, 2 := THIRD];
    var store := new LocalQueueStore(disk, -1, 2, 0, map[0 := FIRST, 1 := SECOND, 2 := THIRD], 0);
    store.DropUntil(1);
    read := ReadFrom(store.disk, 0);
    assert Expected(0, []) == Some(0) by { NothingYet(0, map[], 0); }
    GapAfterDrop(store.disk, 0, [], 0);
    assert [] + read == read;
    ReadsInOrder(store.disk, 0);
    TwoRead(store.disk, read);
  }

  lemma TwoRead(disk: map<nat, Event>, read: seq<Delivery>)
    requires forall o: nat :: o in disk <==> o == 1 || o == 2
    requires Rising(read) && Has(read, 1) && Has(read, 2)
    requires forall i :: 0 <= i < |read| ==> read[i].offset >= 0 && read[i].offset in disk && read[i].event == disk[read[i].offset]
    ensures read == [Delivery(1, disk[1]), Delivery(2, disk[2])]
  {
    var i :| 0 <= i < |read| && read[i].offset == 1;
    var j :| 0 <= j < |read| && read[j].offset == 2;
    RisesBy(read, 1, |read| - 1);
    assert |read| == 2 && i == 0 && j == 1;
  }

  lemma {:induction false} RisesBy(read: seq<Delivery>, low: int, k: nat)
    requires Rising(read) && k < |read| && forall i :: 0 <= i < |read| ==> read[i].offset >= low
    ensures read[k].offset >= low + k
  {
    if k > 0 {
      RisesBy(read, low, k - 1);
    }
  }
}
