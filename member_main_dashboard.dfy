/** The member's dashboard: the member's verified orders for the event, their
    total sales, and the totals per payment status. */
module MemberMainDashboard {
  import opened Lists
  import opened Records

  function VerifiedOrderOf(memberId: Id, eventId: Id): Order -> bool
  {
    (o: Order) => o.memberId == memberId && o.eventId == eventId && o.verified
  }

  /** The member's verified orders for the event, in list order. */
  function MyVerifiedOrders(orders: seq<Order>, memberId: Id, eventId: Id): (r: seq<Order>)
    ensures forall o :: o in r <==> o in orders && o.memberId == memberId && o.eventId == eventId && o.verified
    ensures forall o :: multiset(r)[o] == if o.memberId == memberId && o.eventId == eventId && o.verified then multiset(orders)[o] else 0
  {
    FilterCount(orders, VerifiedOrderOf(memberId, eventId));
    Filter(orders, VerifiedOrderOf(memberId, eventId))
  }

  /** The member's total sales: the rupees of the verified orders. */
  function TotalSales(myOrders: seq<Order>): real
  {
    Sum(myOrders, OrderAmount)
  }

  function HasStatus(status: PaymentStatus): Order -> bool
  {
    (o: Order) => o.paymentStatus == status
  }

  /** The rupees of the orders with one payment status. */
  function BucketTotal(myOrders: seq<Order>, status: PaymentStatus): real
  {
    Sum(Filter(myOrders, HasStatus(status)), OrderAmount)
  }

  /** `paymentStatusTotals`: every bucket starts at zero and each order's amount is added to the bucket of
      its payment status, in place. */
  method PaymentStatusTotals(myOrders: seq<Order>) returns (stats: map<PaymentStatus, real>)
    ensures forall status: PaymentStatus :: status in stats && stats[status] == BucketTotal(myOrders, status)
  {
    stats := map[Baki := 0.0, Cash := 0.0, Online := 0.0];
    forall status: PaymentStatus ensures status in stats && stats[status] == BucketTotal(myOrders[..0], status) {
      assert myOrders[..0] == [];
      assert status == Baki || status == Cash || status == Online;
    }
    for i := 0 to |myOrders|
      invariant forall status: PaymentStatus :: status in stats && stats[status] == BucketTotal(myOrders[..i], status)
    {
      var order := myOrders[i];
      assert myOrders[..i + 1] == myOrders[..i] + [order];
      StatsStep(stats, myOrders[..i], order);
      stats := stats[order.paymentStatus := stats[order.paymentStatus] + order.amountInr];
    }
    assert myOrders[..|myOrders|] == myOrders;
  }

  /** One step of the loop keeps every bucket equal to its total over the orders seen so far. */
  lemma StatsStep(stats: map<PaymentStatus, real>, seen: seq<Order>, order: Order)
    requires forall status: PaymentStatus :: status in stats && stats[status] == BucketTotal(seen, status)
    ensures var after := stats[order.paymentStatus := stats[order.paymentStatus] + order.amountInr];
      forall status: PaymentStatus :: status in after && after[status] == BucketTotal(seen + [order], status)
  {
    var after := stats[order.paymentStatus := stats[order.paymentStatus] + order.amountInr];
    forall status: PaymentStatus ensures status in after && after[status] == BucketTotal(seen + [order], status) {
      BucketSnoc(seen, order, status);
      if status == order.paymentStatus {
        assert after[status] == stats[status] + order.amountInr;
      } else {
        assert after[status] == stats[status];
      }
    }
  }

  /** Appending an order adds its amount to its own bucket only. */
  lemma BucketSnoc(myOrders: seq<Order>, order: Order, status: PaymentStatus)
    ensures BucketTotal(myOrders + [order], status)
            == BucketTotal(myOrders, status) + (if order.paymentStatus == status then order.amountInr else 0.0)
  {
    SumFilterSnoc(myOrders, order, HasStatus(status), OrderAmount);
  }

  /** Every order has exactly one of the three payment statuses, so the three buckets add up to the total
      sales. */
  lemma {:induction false} BucketsAddUpToTotalSales(myOrders: seq<Order>)
    ensures BucketTotal(myOrders, Baki) + BucketTotal(myOrders, Cash) + BucketTotal(myOrders, Online) == TotalSales(myOrders)
  {
    if |myOrders| > 0 {
      var init, last := myOrders[..|myOrders| - 1], myOrders[|myOrders| - 1];
      assert myOrders == init + [last];
      BucketsAddUpToTotalSales(init);
      BucketSnoc(init, last, Baki);
      BucketSnoc(init, last, Cash);
      BucketSnoc(init, last, Online);
      assert TotalSales(init + [last]) == TotalSales(init) + last.amountInr;
    }
  }
}
