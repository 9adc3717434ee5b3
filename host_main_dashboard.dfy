/** The host's dashboard: the event's requests awaiting verification, the stock
    each item has consumed, and the consumption summary per member and item. */
module HostMainDashboard {
  import opened Lists
  import opened Records
  import opened Selections

  function AwaitsVerification(eventId: Id): Order -> bool
  {
    (o: Order) => o.eventId == eventId && !o.verified
  }

  /** The verification table: the event's unverified orders in list order; each row offers Verify. */
  function UnverifiedOrders(orders: seq<Order>, eventId: Id): (r: seq<Order>)
    ensures forall o :: o in r <==> o in orders && o.eventId == eventId && !o.verified
    ensures forall o :: multiset(r)[o] == if o.eventId == eventId && !o.verified then multiset(orders)[o] else 0
  {
    FilterCount(orders, AwaitsVerification(eventId));
    Filter(orders, AwaitsVerification(eventId))
  }

  /** The kilograms of the item consumed by verified orders, in any event. */
  function TotalStockConsumed(orders: seq<Order>, itemId: Id): real
  {
    Consumed(orders, itemId, None)
  }

  /** Orders for other items, or not verified, do not count: the consumption is the sum over exactly the
      verified orders for the item. */
  lemma {:induction false} ConsumptionCountsVerifiedOrdersOfItem(orders: seq<Order>, itemId: Id)
    ensures TotalStockConsumed(orders, itemId) + Sum(Filter(orders, Not(Consumes(itemId, None))), Quantity)
            == Sum(orders, Quantity)
    ensures (forall k :: 0 <= k < |orders| ==> !(orders[k].verified && orders[k].itemId == itemId))
            ==> TotalStockConsumed(orders, itemId) == 0.0
  {
    SumSplitsByFilter(orders, Consumes(itemId, None), Quantity);
    if forall k :: 0 <= k < |orders| ==> !(orders[k].verified && orders[k].itemId == itemId) {
      SumOfEmptyFilter(orders, Consumes(itemId, None), Quantity);
    }
  }

  /** One line of the summary: whose and which item, with the summed kilograms and rupees. */
  datatype SummaryEntry = SummaryEntry(memberName: string, itemName: string, quantity: real, amount: real)

  /** The summary dictionary: its keys in insertion order (the order `Object.values` lists them in) and
      its entries. */
  datatype Summary = Summary(keys: seq<string>, entries: map<string, SummaryEntry>)

  /** The dictionary key of a member and an item. */
  function SummaryKey(memberId: Id, itemId: Id): string
  {
    memberId + "-" + itemId
  }

  /** For ids of one length (the application's ids all have the same form), the key determines the member
      and the item. */
  lemma SummaryKeyInjective(m1: Id, i1: Id, m2: Id, i2: Id)
    requires |m1| == |m2|
    ensures SummaryKey(m1, i1) == SummaryKey(m2, i2) <==> m1 == m2 && i1 == i2
  {
    if SummaryKey(m1, i1) == SummaryKey(m2, i2) {
      assert m1 == SummaryKey(m1, i1)[..|m1|];
      assert m2 == SummaryKey(m2, i2)[..|m2|];
      assert i1 == SummaryKey(m1, i1)[|m1| + 1..];
      assert i2 == SummaryKey(m2, i2)[|m2| + 1..];
    }
  }

  /** One step of the loop: an order whose member and item are both found adds its quantity and amount to
      their entry, creating the entry with the names and zero totals on first use; any other order is
      skipped. */
  function AddToSummary(s: Summary, o: Order, users: seq<User>, items: seq<Item>): Summary
  {
    var member, item := FindUser(users, o.memberId), FindItem(items, o.itemId);
    if member.Some? && item.Some? then
      var key := SummaryKey(member.value.id, item.value.id);
      var entry := if key in s.entries then s.entries[key] else SummaryEntry(member.value.name, item.value.name, 0.0, 0.0);
      Summary(if key in s.entries then s.keys else s.keys + [key],
              s.entries[key := entry.(quantity := entry.quantity + o.quantityKg, amount := entry.amount + o.amountInr)])
    else s
  }

  /** The step for an order whose member and item are found, with the records found. */
  lemma AddToSummaryFound(s: Summary, o: Order, users: seq<User>, items: seq<Item>, member: User, item: Item)
    requires FindUser(users, o.memberId) == Some(member) && FindItem(items, o.itemId) == Some(item)
    ensures var key := SummaryKey(member.id, item.id);
      var first := if key in s.entries then s.entries[key] else SummaryEntry(member.name, item.name, 0.0, 0.0);
      AddToSummary(s, o, users, items)
      == Summary(if key in s.entries then s.keys else s.keys + [key],
                 s.entries[key := first.(quantity := first.quantity + o.quantityKg, amount := first.amount + o.amountInr)])
  {
  }

  /** An order whose member or item is unknown leaves the summary as it was. */
  lemma AddToSummarySkips(s: Summary, o: Order, users: seq<User>, items: seq<Item>)
    requires FindUser(users, o.memberId).None? || FindItem(items, o.itemId).None?
    ensures AddToSummary(s, o, users, items) == s
  {
  }

  /** The summary after the loop has run over `orders`. */
  function Summarize(orders: seq<Order>, users: seq<User>, items: seq<Item>): Summary
  {
    if |orders| == 0 then Summary([], map[])
    else AddToSummary(Summarize(orders[..|orders| - 1], users, items), orders[|orders| - 1], users, items)
  }

  /** Running one more step of the loop extends the summary by that order. */
  lemma SummarizePrefix(orders: seq<Order>, i: nat, users: seq<User>, items: seq<Item>)
    requires i < |orders|
    ensures Summarize(orders[..i + 1], users, items) == AddToSummary(Summarize(orders[..i], users, items), orders[i], users, items)
  {
    assert orders[..i + 1][..i] == orders[..i];
  }

  /** Each key is listed once, and the listed keys are the dictionary's keys. */
  predicate WellFormed(s: Summary)
  {
    && (forall i, j :: 0 <= i < j < |s.keys| ==> s.keys[i] != s.keys[j])
    && (forall k :: 0 <= k < |s.keys| ==> s.keys[k] in s.entries)
    && (forall key :: key in s.entries ==> key in s.keys)
  }

  /** An order feeds a key when its member and item are both found and the key is theirs. */
  function FeedsKey(users: seq<User>, items: seq<Item>, key: string): Order -> bool
  {
    (o: Order) => FindUser(users, o.memberId).Some? && FindItem(items, o.itemId).Some? && SummaryKey(o.memberId, o.itemId) == key
  }

  /** One step keeps the keys listed once and in step with the dictionary. */
  lemma AddToSummaryWellFormed(s: Summary, o: Order, users: seq<User>, items: seq<Item>)
    requires WellFormed(s)
    ensures WellFormed(AddToSummary(s, o, users, items))
  {
  }

  /** One step touches exactly the key the order feeds, adding its quantity and amount there. */
  lemma AddToSummaryEntry(s: Summary, o: Order, users: seq<User>, items: seq<Item>, key: string)
    ensures var after := AddToSummary(s, o, users, items);
      && (key in after.entries <==> key in s.entries || FeedsKey(users, items, key)(o))
      && (key in after.entries ==>
           && after.entries[key].quantity
              == (if key in s.entries then s.entries[key].quantity else 0.0)
                 + (if FeedsKey(users, items, key)(o) then o.quantityKg else 0.0)
           && after.entries[key].amount
              == (if key in s.entries then s.entries[key].amount else 0.0)
                 + (if FeedsKey(users, items, key)(o) then o.amountInr else 0.0))
  {
    var member, item := FindUser(users, o.memberId), FindItem(items, o.itemId);
    if member.Some? && item.Some? {
      assert member.value.id == o.memberId && item.value.id == o.itemId;
    }
  }

  /** The summary has a key exactly for the member-item pairs some order feeds, and each entry's totals are
      the sums over exactly the orders feeding its key. Orders whose member or item is unknown feed none. */
  lemma {:induction false} SummarizeTotals(orders: seq<Order>, users: seq<User>, items: seq<Item>)
    ensures WellFormed(Summarize(orders, users, items))
    ensures forall key :: key in Summarize(orders, users, items).entries <==> Filter(orders, FeedsKey(users, items, key)) != []
    ensures forall key :: key in Summarize(orders, users, items).entries ==>
      && Summarize(orders, users, items).entries[key].quantity == Sum(Filter(orders, FeedsKey(users, items, key)), Quantity)
      && Summarize(orders, users, items).entries[key].amount == Sum(Filter(orders, FeedsKey(users, items, key)), OrderAmount)
  {
    if |orders| > 0 {
      var init, last := orders[..|orders| - 1], orders[|orders| - 1];
      assert orders == init + [last];
      SummarizeTotals(init, users, items);
      var before, after := Summarize(init, users, items), Summarize(orders, users, items);
      assert after == AddToSummary(before, last, users, items);
      AddToSummaryWellFormed(before, last, users, items);
      forall key
        ensures key in after.entries <==> Filter(orders, FeedsKey(users, items, key)) != []
        ensures key in after.entries ==>
          && after.entries[key].quantity == Sum(Filter(orders, FeedsKey(users, items, key)), Quantity)
          && after.entries[key].amount == Sum(Filter(orders, FeedsKey(users, items, key)), OrderAmount)
      {
        AddToSummaryEntry(before, last, users, items, key);
        KeyStep(init, last, before, after, FeedsKey(users, items, key), key);
      }
    }
  }

  /** Every summary the loop builds keeps its keys listed once and in step with the dictionary. */
  lemma {:induction false} SummarizeWellFormed(orders: seq<Order>, users: seq<User>, items: seq<Item>)
    ensures WellFormed(Summarize(orders, users, items))
  {
    if |orders| > 0 {
      SummarizeWellFormed(orders[..|orders| - 1], users, items);
      AddToSummaryWellFormed(Summarize(orders[..|orders| - 1], users, items), orders[|orders| - 1], users, items);
    }
  }

  lemma KeyStep(init: seq<Order>, last: Order, before: Summary, after: Summary, feeds: Order -> bool, key: string)
    requires key in after.entries <==> key in before.entries || feeds(last)
    requires key in after.entries ==>
      && after.entries[key].quantity
         == (if key in before.entries then before.entries[key].quantity else 0.0) + (if feeds(last) then last.quantityKg else 0.0)
      && after.entries[key].amount
         == (if key in before.entries then before.entries[key].amount else 0.0) + (if feeds(last) then last.amountInr else 0.0)
    requires key in before.entries <==> Filter(init, feeds) != []
    requires key in before.entries ==>
      && before.entries[key].quantity == Sum(Filter(init, feeds), Quantity)
      && before.entries[key].amount == Sum(Filter(init, feeds), OrderAmount)
    ensures key in after.entries <==> Filter(init + [last], feeds) != []
    ensures key in after.entries ==>
      && after.entries[key].quantity == Sum(Filter(init + [last], feeds), Quantity)
      && after.entries[key].amount == Sum(Filter(init + [last], feeds), OrderAmount)
  {
    assert (init + [last])[..|init|] == init;
    assert Filter(init + [last], feeds) == Filter(init, feeds) + (if feeds(last) then [last] else []);
    SumFilterSnoc(init, last, feeds, Quantity);
    SumFilterSnoc(init, last, feeds, OrderAmount);
  }

  /** The entries in the order their keys were first used. */
  function SummaryRows(s: Summary): (rows: seq<SummaryEntry>)
    requires WellFormed(s)
    ensures |rows| == |s.keys|
    ensures forall key :: key in s.entries ==> s.entries[key] in rows
  {
    var rows := seq(|s.keys|, k requires 0 <= k < |s.keys| => s.entries[s.keys[k]]);
    assert forall key :: key in s.entries ==> exists k :: 0 <= k < |s.keys| && s.keys[k] == key && rows[k] == s.entries[key];
    rows
  }

  /** The loop body of `memberConsumptionSummary`: a found member and item get their entry, created with
      the names and zero totals on first use, and the order's figures are added to it. */
  method AddOrderToSummary(keys: seq<string>, summary: map<string, SummaryEntry>, order: Order, users: seq<User>, items: seq<Item>)
    returns (keys': seq<string>, summary': map<string, SummaryEntry>)
    ensures Summary(keys', summary') == AddToSummary(Summary(keys, summary), order, users, items)
  {
    keys', summary' := keys, summary;
    var member := FindUser(users, order.memberId);
    var item := FindItem(items, order.itemId);
    if member.Some? && item.Some? {
      var key := SummaryKey(member.value.id, item.value.id);
      var entry := if key in summary then summary[key] else SummaryEntry(member.value.name, item.value.name, 0.0, 0.0);
      if key !in summary {
        keys' := keys + [key];
      }
      summary' := summary[key := entry.(quantity := entry.quantity + order.quantityKg, amount := entry.amount + order.amountInr)];
      AddToSummaryFound(Summary(keys, summary), order, users, items, member.value, item.value);
    } else {
      AddToSummarySkips(Summary(keys, summary), order, users, items);
    }
  }

  /** `memberConsumptionSummary`: the loop over the event's verified orders, building the dictionary in
      place, then its values. */
  method MemberConsumptionSummary(orders: seq<Order>, users: seq<User>, items: seq<Item>, eventId: Id)
    returns (rows: seq<SummaryEntry>)
    ensures WellFormed(Summarize(Filter(orders, VerifiedInEvent(eventId)), users, items))
    ensures rows == SummaryRows(Summarize(Filter(orders, VerifiedInEvent(eventId)), users, items))
  {
    var verifiedOrders := Filter(orders, VerifiedInEvent(eventId));
    var keys: seq<string> := [];
    var summary: map<string, SummaryEntry> := map[];
    for i := 0 to |verifiedOrders|
      invariant Summary(keys, summary) == Summarize(verifiedOrders[..i], users, items)
    {
      keys, summary := AddOrderToSummary(keys, summary, verifiedOrders[i], users, items);
      SummarizePrefix(verifiedOrders, i, users, items);
    }
    assert verifiedOrders[..|verifiedOrders|] == verifiedOrders;
    SummarizeWellFormed(verifiedOrders, users, items);
    rows := seq(|keys|, k requires 0 <= k < |keys| => summary[keys[k]]);
  }
}
