/** Selections several screens share. */
module Selections {
  import opened Lists
  import opened Records
  import opened Store

  function ItemInEvent(eventId: Id): Item -> bool
  {
    (i: Item) => i.eventId == eventId
  }

  /** The items of the selected event, in list order; every dashboard lists them. */
  function EventItems(items: seq<Item>, eventId: Id): (r: seq<Item>)
    ensures forall i :: i in r <==> i in items && i.eventId == eventId
    ensures forall i :: multiset(r)[i] == if i.eventId == eventId then multiset(items)[i] else 0
  {
    FilterCount(items, ItemInEvent(eventId));
    Filter(items, ItemInEvent(eventId))
  }

  function IsVerified(o: Order): bool
  {
    o.verified
  }

  /** A verified order of the event. */
  function VerifiedInEvent(eventId: Id): Order -> bool
  {
    (o: Order) => o.eventId == eventId && o.verified
  }

  /** An order belongs to a member's list for an event. */
  function OrderOfMemberInEvent(memberId: Id, eventId: Id): Order -> bool
  {
    (o: Order) => o.memberId == memberId && o.eventId == eventId
  }

  /** An order counts as consumption of an item when it is verified and for that item; with an event scope
      it must also belong to that event. */
  function Consumes(itemId: Id, eventScope: Option<Id>): Order -> bool
  {
    (o: Order) => o.verified && o.itemId == itemId && (eventScope.None? || o.eventId == eventScope.value)
  }

  /** The kilograms of an item consumed by the verified orders in scope. */
  function Consumed(orders: seq<Order>, itemId: Id, eventScope: Option<Id>): real
  {
    Sum(Filter(orders, Consumes(itemId, eventScope)), Quantity)
  }

  /** An order marking it verified turns into consumption. */
  function BecomesConsumption(orderId: Id, itemId: Id, eventScope: Option<Id>): Order -> bool
  {
    (o: Order) => o.id == orderId && !o.verified && o.itemId == itemId && (eventScope.None? || o.eventId == eventScope.value)
  }

  /** Marking orders verified adds to consumption exactly the orders with that id that were not yet
      verified; orders already verified were counted before. */
  lemma {:induction false} MarkVerifiedConsumption(orders: seq<Order>, orderId: Id, itemId: Id, eventScope: Option<Id>)
    ensures Consumed(MarkOrderVerified(orders, orderId), itemId, eventScope)
            == Consumed(orders, itemId, eventScope) + Sum(Filter(orders, BecomesConsumption(orderId, itemId, eventScope)), Quantity)
  {
    if |orders| > 0 {
      var init, last := orders[..|orders| - 1], orders[|orders| - 1];
      assert orders == init + [last];
      MarkVerifiedConsumption(init, orderId, itemId, eventScope);
      MarkLast(orders, orderId);
      ConsumptionStep(MarkOrderVerified(init, orderId), init, last, orderId, itemId, eventScope);
    }
  }

  /** Appending one order, marked or not, keeps the consumption balance of the prefix. */
  lemma ConsumptionStep(marked: seq<Order>, init: seq<Order>, last: Order, orderId: Id, itemId: Id, eventScope: Option<Id>)
    requires Consumed(marked, itemId, eventScope)
             == Consumed(init, itemId, eventScope) + Sum(Filter(init, BecomesConsumption(orderId, itemId, eventScope)), Quantity)
    ensures Consumed(marked + [Marked(last, orderId)], itemId, eventScope)
            == Consumed(init + [last], itemId, eventScope) + Sum(Filter(init + [last], BecomesConsumption(orderId, itemId, eventScope)), Quantity)
  {
    SumFilterSnoc(marked, Marked(last, orderId), Consumes(itemId, eventScope), Quantity);
    SumFilterSnoc(init, last, Consumes(itemId, eventScope), Quantity);
    SumFilterSnoc(init, last, BecomesConsumption(orderId, itemId, eventScope), Quantity);
  }

  /** One order after `verifyOrder`'s update. */
  function Marked(o: Order, orderId: Id): Order
  {
    if o.id == orderId then o.(verified := true, edited := Some(false)) else o
  }

  /** Marking a list is marking all but its last order, then the last one. */
  lemma MarkLast(orders: seq<Order>, orderId: Id)
    requires |orders| > 0
    ensures MarkOrderVerified(orders, orderId)
            == MarkOrderVerified(orders[..|orders| - 1], orderId) + [Marked(orders[|orders| - 1], orderId)]
  {
  }

  /** With distinct order ids, verifying an unverified order adds its quantity to its item's consumption
      and leaves every other item's consumption as it was. */
  lemma VerifyingAddsConsumption(orders: seq<Order>, orderId: Id, itemId: Id, eventScope: Option<Id>)
    requires DistinctOrderIds(orders)
    requires FindOrder(orders, orderId).Some? && !FindOrder(orders, orderId).value.verified
    ensures var o := FindOrder(orders, orderId).value;
      Consumed(MarkOrderVerified(orders, orderId), itemId, eventScope)
      == Consumed(orders, itemId, eventScope)
         + if o.itemId == itemId && (eventScope.None? || o.eventId == eventScope.value) then o.quantityKg else 0.0
  {
    var o := FindOrder(orders, orderId).value;
    var p := BecomesConsumption(orderId, itemId, eventScope);
    MarkVerifiedConsumption(orders, orderId, itemId, eventScope);
    FindFirst(orders, OrderWithId(orderId));
    var k :| 0 <= k < |orders| && orders[k] == o && forall j :: 0 <= j < k ==> !OrderWithId(orderId)(orders[j]);
    assert forall j :: 0 <= j < |orders| && j != k ==> orders[j].id != orderId;
    if p(o) {
      SumOfSingleMatch(orders, p, Quantity, k);
    } else {
      SumOfEmptyFilter(orders, p, Quantity);
    }
  }

  /** With distinct order ids, verifying an order that is already verified changes no consumption. */
  lemma VerifyingAgainAddsNothing(orders: seq<Order>, orderId: Id, itemId: Id, eventScope: Option<Id>)
    requires DistinctOrderIds(orders)
    requires FindOrder(orders, orderId).Some? && FindOrder(orders, orderId).value.verified
    ensures Consumed(MarkOrderVerified(orders, orderId), itemId, eventScope) == Consumed(orders, itemId, eventScope)
  {
    var p := BecomesConsumption(orderId, itemId, eventScope);
    MarkVerifiedConsumption(orders, orderId, itemId, eventScope);
    FindFirst(orders, OrderWithId(orderId));
    var k :| 0 <= k < |orders| && orders[k] == FindOrder(orders, orderId).value
             && forall j :: 0 <= j < k ==> !OrderWithId(orderId)(orders[j]);
    assert forall j :: 0 <= j < |orders| && j != k ==> orders[j].id != orderId;
    SumOfEmptyFilter(orders, p, Quantity);
  }
}
