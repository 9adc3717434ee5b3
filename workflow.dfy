/** The consumption and verification workflow across several store operations:
    requests reserve nothing, verification re-checks and deducts, a host's direct
    entry is a request verified on the spot, an edit re-opens verification, and
    the store itself does not stop a second verification of the same order. */
module Workflow {
  import opened Lists
  import opened Records
  import opened Store

  /** Marking one order verified leaves the lookup of any other id as it was. */
  lemma {:induction false} MarkKeepsOtherLookups(orders: seq<Order>, orderId: Id, other: Id)
    requires other != orderId
    ensures FindOrder(MarkOrderVerified(orders, orderId), other) == FindOrder(orders, other)
  {
    var marked := MarkOrderVerified(orders, orderId);
    if FindOrder(orders, other).Some? {
      FindFirst(orders, OrderWithId(other));
      var k :| 0 <= k < |orders| && orders[k] == FindOrder(orders, other).value
               && forall j :: 0 <= j < k ==> !OrderWithId(other)(orders[j]);
      FindAt(marked, OrderWithId(other), k);
    } else {
      assert forall k :: 0 <= k < |marked| ==> !OrderWithId(other)(marked[k]);
    }
  }

  /** Looking the order up after marking it finds the same order, now verified and not edited. */
  lemma {:induction false} MarkedLookup(orders: seq<Order>, orderId: Id, order: Order)
    requires FindOrder(orders, orderId) == Some(order)
    ensures FindOrder(MarkOrderVerified(orders, orderId), orderId) == Some(order.(verified := true, edited := Some(false)))
  {
    FindFirst(orders, OrderWithId(orderId));
    var k :| 0 <= k < |orders| && orders[k] == order && forall j :: 0 <= j < k ==> !OrderWithId(orderId)(orders[j]);
    FindAt(MarkOrderVerified(orders, orderId), OrderWithId(orderId), k);
  }

  /** Looking an item up after a deduction finds the same item with the quantity deducted. */
  lemma {:induction false} DeductedLookup(items: seq<Item>, itemId: Id, quantityKg: real, item: Item)
    requires FindItem(items, itemId) == Some(item)
    ensures FindItem(DeductStock(items, itemId, quantityKg), itemId) == Some(item.(availableStockKg := item.availableStockKg - quantityKg))
  {
    FindFirst(items, ItemWithId(itemId));
    var k :| 0 <= k < |items| && items[k] == item && forall j :: 0 <= j < k ==> !ItemWithId(itemId)(items[j]);
    var adjusted := DeductStock(items, itemId, quantityKg);
    assert adjusted[k] == item.(availableStockKg := item.availableStockKg - quantityKg);
    assert forall j :: 0 <= j < k ==> !ItemWithId(itemId)(adjusted[j]) by {
      forall j | 0 <= j < k ensures !ItemWithId(itemId)(adjusted[j]) {
        assert adjusted[j].id == items[j].id;
      }
    }
    FindAt(adjusted, ItemWithId(itemId), k);
  }

  /** Looking the order up after an edit finds it with the new values. */
  lemma {:induction false} EditedLookup(orders: seq<Order>, orderId: Id, customerName: string, itemId: Id,
                                        quantityKg: real, amountInr: real, now: Timestamp)
    requires FindOrder(orders, orderId).Some?
    ensures var edited := ApplyOrderEdit(orders, orderId, customerName, itemId, quantityKg, amountInr, now);
      && FindOrder(edited, orderId).Some?
      && FindOrder(edited, orderId).value.itemId == itemId
      && FindOrder(edited, orderId).value.quantityKg == quantityKg
      && !FindOrder(edited, orderId).value.verified
      && FindOrder(edited, orderId).value.edited == Some(true)
  {
    var edited := ApplyOrderEdit(orders, orderId, customerName, itemId, quantityKg, amountInr, now);
    FindFirst(orders, OrderWithId(orderId));
    var k :| 0 <= k < |orders| && orders[k] == FindOrder(orders, orderId).value
             && forall j :: 0 <= j < k ==> !OrderWithId(orderId)(orders[j]);
    FindAt(edited, OrderWithId(orderId), k);
  }

  /** One successful verification: the check passes when the order's item holds enough, the stock update
      is the deduction, and the item is found again with the quantity deducted. */
  lemma VerifyStep(orders: seq<Order>, items: seq<Item>, orderId: Id, order: Order, item: Item)
    requires FindOrder(orders, orderId) == Some(order)
    requires FindItem(items, order.itemId) == Some(item) && order.quantityKg <= item.availableStockKg
    ensures VerifyCheck(orders, items, orderId) == Done
    ensures StockAfterVerify(orders, items, orderId) == DeductStock(items, order.itemId, order.quantityKg)
    ensures FindItem(DeductStock(items, order.itemId, order.quantityKg), order.itemId)
            == Some(item.(availableStockKg := item.availableStockKg - order.quantityKg))
  {
    VerifyPasses(orders, items, orderId, order, item);
    DeductedLookup(items, order.itemId, order.quantityKg, item);
  }

  /** When the order's item holds enough, the check passes and the stock update is the deduction. */
  lemma VerifyPasses(orders: seq<Order>, items: seq<Item>, orderId: Id, order: Order, item: Item)
    requires FindOrder(orders, orderId) == Some(order)
    requires FindItem(items, order.itemId) == Some(item) && order.quantityKg <= item.availableStockKg
    ensures VerifyCheck(orders, items, orderId) == Done
    ensures StockAfterVerify(orders, items, orderId) == DeductStock(items, order.itemId, order.quantityKg)
  {
    assert CheckStock(items, order.itemId, order.quantityKg) == Done;
  }

  /** Nothing stops a second verification of an order that is already verified: while stock suffices it
      passes again and deducts the quantity a second time. */
  lemma VerifyTwiceDeductsTwice(orders: seq<Order>, items: seq<Item>, orderId: Id)
    requires FindOrder(orders, orderId).Some?
    requires var order := FindOrder(orders, orderId).value;
      && FindItem(items, order.itemId).Some?
      && 0.0 <= order.quantityKg
      && 2.0 * order.quantityKg <= FindItem(items, order.itemId).value.availableStockKg
    ensures VerifyCheck(orders, items, orderId) == Done
    ensures var order := FindOrder(orders, orderId).value;
      var orders1 := MarkOrderVerified(orders, orderId);
      var items1 := StockAfterVerify(orders, items, orderId);
      && FindOrder(orders1, orderId).value.verified
      && VerifyCheck(orders1, items1, orderId) == Done
      && FindItem(StockAfterVerify(orders1, items1, orderId), order.itemId).value.availableStockKg
         == FindItem(items, order.itemId).value.availableStockKg - 2.0 * order.quantityKg
  {
    var order := FindOrder(orders, orderId).value;
    var item := FindItem(items, order.itemId).value;
    VerifyStep(orders, items, orderId, order, item);
    MarkedLookup(orders, orderId, order);
    var orders1 := MarkOrderVerified(orders, orderId);
    var items1 := DeductStock(items, order.itemId, order.quantityKg);
    var order1 := order.(verified := true, edited := Some(false));
    var item1 := item.(availableStockKg := item.availableStockKg - order.quantityKg);
    VerifyStep(orders1, items1, orderId, order1, item1);
  }

  /** Two pending requests for the same item, each within the stock but together over it: the first
      verification passes, the second is refused for insufficient stock, and the stock keeps only the
      first deduction. Requests reserve nothing, so this is only discovered at verification. */
  lemma VerificationRace(orders: seq<Order>, items: seq<Item>, firstId: Id, secondId: Id)
    requires firstId != secondId
    requires FindOrder(orders, firstId).Some? && FindOrder(orders, secondId).Some?
    requires FindOrder(orders, firstId).value.itemId == FindOrder(orders, secondId).value.itemId
    requires FindItem(items, FindOrder(orders, firstId).value.itemId).Some?
    requires var stock := FindItem(items, FindOrder(orders, firstId).value.itemId).value.availableStockKg;
      var q1, q2 := FindOrder(orders, firstId).value.quantityKg, FindOrder(orders, secondId).value.quantityKg;
      q1 <= stock && q2 <= stock && q1 + q2 > stock
    ensures VerifyCheck(orders, items, firstId) == Done && VerifyCheck(orders, items, secondId) == Done
    ensures var orders1 := MarkOrderVerified(orders, firstId);
      var items1 := StockAfterVerify(orders, items, firstId);
      var itemId := FindOrder(orders, firstId).value.itemId;
      && VerifyCheck(orders1, items1, secondId) == Failed(InsufficientStock)
      && StockAfterVerify(orders1, items1, secondId) == items1
      && FindItem(items1, itemId).value.availableStockKg
         == FindItem(items, itemId).value.availableStockKg - FindOrder(orders, firstId).value.quantityKg
  {
    var first, second := FindOrder(orders, firstId).value, FindOrder(orders, secondId).value;
    var orders1 := MarkOrderVerified(orders, firstId);
    var item := FindItem(items, first.itemId).value;
    VerifyStep(orders, items, firstId, first, item);
    VerifyStep(orders, items, secondId, second, item);
    var items1 := StockAfterVerify(orders, items, firstId);
    MarkKeepsOtherLookups(orders, firstId, secondId);
    assert FindOrder(orders1, secondId) == Some(second);
    assert FindItem(items1, second.itemId).value.availableStockKg < second.quantityKg;
    assert CheckStock(items1, second.itemId, second.quantityKg) == Failed(InsufficientStock);
  }

  /** The host's direct entry is a member's request verified on the spot: same outcome, same stock, and the
      same order list up to the `edited` flag, which verification writes and direct entry leaves absent. */
  lemma ConsumptionIsRequestThenVerify(orders: seq<Order>, items: seq<Item>, id: Id, memberId: Id, eventId: Id,
                                       itemId: Id, customerName: string, quantityKg: real, amountInr: real,
                                       now: Timestamp)
    requires forall k :: 0 <= k < |orders| ==> orders[k].id != id
    ensures var requested := orders + [NewOrder(id, memberId, eventId, itemId, customerName, quantityKg, amountInr, false, now)];
      && VerifyCheck(requested, items, id) == CheckStock(items, itemId, quantityKg)
      && StockAfterVerify(requested, items, id)
         == (if CheckStock(items, itemId, quantityKg).Done? then DeductStock(items, itemId, quantityKg) else items)
      && MarkOrderVerified(requested, id)
         == orders + [NewOrder(id, memberId, eventId, itemId, customerName, quantityKg, amountInr, true, now).(edited := Some(false))]
  {
    var order := NewOrder(id, memberId, eventId, itemId, customerName, quantityKg, amountInr, false, now);
    var requested := orders + [order];
    FindAt(requested, OrderWithId(id), |orders|);
    var marked := MarkOrderVerified(requested, id);
    var expected := orders + [NewOrder(id, memberId, eventId, itemId, customerName, quantityKg, amountInr, true, now).(edited := Some(false))];
    assert |marked| == |expected|;
    forall k | 0 <= k < |marked| ensures marked[k] == expected[k] {
      if k < |orders| {
        assert requested[k] == orders[k];
      }
    }
  }

  /** An edit re-opens verification: the order shows "Pending (Edited)", and verifying it afterwards checks
      and deducts the new item and quantity, after which it shows "Verified" and no longer counts as edited. */
  lemma EditReopensVerification(orders: seq<Order>, items: seq<Item>, orderId: Id, customerName: string, itemId: Id,
                                quantityKg: real, amountInr: real, now: Timestamp)
    requires FindOrder(orders, orderId).Some?
    ensures var edited := ApplyOrderEdit(orders, orderId, customerName, itemId, quantityKg, amountInr, now);
      && StatusLabel(FindOrder(edited, orderId).value) == "Pending (Edited)"
      && VerifyCheck(edited, items, orderId) == CheckStock(items, itemId, quantityKg)
      && StockAfterVerify(edited, items, orderId)
         == (if CheckStock(items, itemId, quantityKg).Done? then DeductStock(items, itemId, quantityKg) else items)
      && StatusLabel(FindOrder(MarkOrderVerified(edited, orderId), orderId).value) == "Verified"
      && !WasEdited(FindOrder(MarkOrderVerified(edited, orderId), orderId).value)
  {
    var edited := ApplyOrderEdit(orders, orderId, customerName, itemId, quantityKg, amountInr, now);
    EditedLookup(orders, orderId, customerName, itemId, quantityKg, amountInr, now);
    var order := FindOrder(edited, orderId).value;
    assert StatusLabel(order) == "Pending (Edited)";
    assert VerifyCheck(edited, items, orderId) == CheckStock(items, itemId, quantityKg);
    assert StockAfterVerify(edited, items, orderId)
           == (if CheckStock(items, itemId, quantityKg).Done? then DeductStock(items, itemId, quantityKg) else items);
    MarkedLookup(edited, orderId, order);
  }
}
