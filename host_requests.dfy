/** The host's request list: the event's requests, optionally only those of one
    calendar day, newest first, each offering Verify and Reject while it is
    unverified. */
module HostRequests {
  import opened Lists
  import opened Records
  import opened Store
  import opened Workflow

  const MillisPerDay: int := 86400000

  /** The UTC calendar day of a time in milliseconds, as the `YYYY-MM-DD` prefix of `toISOString` names it:
      two times print the same prefix exactly when they fall in the same day. */
  function UtcDay(t: Timestamp): int
  {
    t / MillisPerDay
  }

  /** The day filter: none keeps every order, a day keeps the orders made on it. */
  function OnDay(filterDay: Option<int>): Order -> bool
  {
    (o: Order) => filterDay.None? || UtcDay(o.dateTime) == filterDay.value
  }

  function OrderInEvent(eventId: Id): Order -> bool
  {
    (o: Order) => o.eventId == eventId
  }

  /** The event's orders, then those of the filter day if one is set, sorted newest first. */
  function EventOrders(orders: seq<Order>, eventId: Id, filterDay: Option<int>): (r: seq<Order>)
    ensures forall o :: o in r <==> o in orders && o.eventId == eventId
                                     && (filterDay.None? || UtcDay(o.dateTime) == filterDay.value)
    ensures forall o :: multiset(r)[o] == if o.eventId == eventId && (filterDay.None? || UtcDay(o.dateTime) == filterDay.value)
                                          then multiset(orders)[o] else 0
    ensures NewestFirst(r, OrderTime)
  {
    var inEvent := Filter(orders, OrderInEvent(eventId));
    var filtered := Filter(inEvent, OnDay(filterDay));
    FilterCount(orders, OrderInEvent(eventId));
    FilterCount(inEvent, OnDay(filterDay));
    var r := SortNewestFirst(filtered, OrderTime);
    assert forall o :: o in r <==> o in multiset(r);
    r
  }

  /** Setting a day only narrows the list: every order shown for a day is shown without the filter, as
      often, and an order made on that day is shown in both. */
  lemma DayFilterNarrows(orders: seq<Order>, eventId: Id, day: int)
    ensures multiset(EventOrders(orders, eventId, Some(day))) <= multiset(EventOrders(orders, eventId, None))
    ensures forall o :: o in EventOrders(orders, eventId, None) && UtcDay(o.dateTime) == day
                        ==> o in EventOrders(orders, eventId, Some(day))
  {
    var narrow, wide := multiset(EventOrders(orders, eventId, Some(day))), multiset(EventOrders(orders, eventId, None));
    forall o ensures narrow[o] <= wide[o] {
    }
  }

  /** Verify and Reject are offered exactly for the requests not yet verified. */
  function VerifyAndRejectOffered(o: Order): (offered: bool)
    ensures offered <==> StatusLabel(o) != "Verified"
  {
    !o.verified
  }

  /** A verified request no longer offers Verify or Reject; a rejected one leaves the list. */
  lemma VerifyAndRejectWithdrawn(orders: seq<Order>, orderId: Id, eventId: Id, filterDay: Option<int>)
    requires FindOrder(orders, orderId).Some?
    ensures !VerifyAndRejectOffered(FindOrder(MarkOrderVerified(orders, orderId), orderId).value)
    ensures forall o :: o in EventOrders(WithoutOrder(orders, orderId), eventId, filterDay) ==> o.id != orderId
  {
    MarkedLookup(orders, orderId, FindOrder(orders, orderId).value);
  }
}
