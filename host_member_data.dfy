/** The host's member table: the approved members, each member's sales and
    pending requests for the event, and the host's direct-entry form. */
module HostMemberData {
  import opened Lists
  import opened Records
  import opened Store
  import opened MemberMainDashboard

  function IsApprovedMember(u: User): bool
  {
    u.role == Member && u.status == Approved
  }

  /** The approved members, in list order. */
  function Members(users: seq<User>): (r: seq<User>)
    ensures forall u :: u in r <==> u in users && u.role == Member && u.status == Approved
    ensures forall u :: multiset(r)[u] == if u.role == Member && u.status == Approved then multiset(users)[u] else 0
  {
    FilterCount(users, IsApprovedMember);
    Filter(users, IsApprovedMember)
  }

  function OrderOf(memberId: Id, eventId: Id): Order -> bool
  {
    (o: Order) => o.memberId == memberId && o.eventId == eventId
  }

  function IsVerifiedOrder(o: Order): bool
  {
    o.verified
  }

  /** A member's figures in the table. */
  datatype MemberStats = MemberStats(totalSales: real, pendingRequests: nat)

  /** The rupees of the member's verified orders for the event, and the number of the member's unverified
      ones. */
  function GetMemberStats(orders: seq<Order>, memberId: Id, eventId: Id): (stats: MemberStats)
    ensures stats.pendingRequests <= |Filter(orders, OrderOf(memberId, eventId))|
  {
    var memberOrders := Filter(orders, OrderOf(memberId, eventId));
    MemberStats(Sum(Filter(memberOrders, IsVerifiedOrder), OrderAmount), |Filter(memberOrders, Not(IsVerifiedOrder))|)
  }

  /** Every order of the member is pending or verified: the pending count and the verified count add up
      to the member's orders for the event. */
  lemma PendingPlusVerified(orders: seq<Order>, memberId: Id, eventId: Id)
    ensures var memberOrders := Filter(orders, OrderOf(memberId, eventId));
      GetMemberStats(orders, memberId, eventId).pendingRequests + |Filter(memberOrders, IsVerifiedOrder)| == |memberOrders|
  {
    FilterSplitsLength(Filter(orders, OrderOf(memberId, eventId)), IsVerifiedOrder);
  }

  /** The host sees the same sales figure as the member's own dashboard. */
  lemma SalesAgreeWithMemberDashboard(orders: seq<Order>, memberId: Id, eventId: Id)
    ensures GetMemberStats(orders, memberId, eventId).totalSales == TotalSales(MyVerifiedOrders(orders, memberId, eventId))
  {
    FilterOfFilter(orders, OrderOf(memberId, eventId), IsVerifiedOrder, VerifiedOrderOf(memberId, eventId));
  }

  /** The direct-entry form as submitted; a number that does not parse is `None`. */
  datatype ConsumptionForm = ConsumptionForm(memberId: Id, itemId: Id, customerName: string,
                                             quantityKg: Option<real>, amountInr: Option<real>)

  /** Member, item and customer are given, the quantity is a number above zero and the amount a number
      not below zero. */
  predicate ValidConsumption(form: ConsumptionForm)
  {
    && form.memberId != "" && form.itemId != "" && form.customerName != ""
    && form.quantityKg.Some? && form.quantityKg.value > 0.0
    && form.amountInr.Some? && form.amountInr.value >= 0.0
  }

  /** What the handler did: refused the form with an error notice, or called the store and got its
      answer. */
  datatype HandlerResult = RefusedInput | Submitted(outcome: Outcome)

  /** `handleAddConsumption`: an invalid form changes nothing and is refused; a valid one is entered
      through `addConsumptionByHost`, and the form closes exactly when that succeeds. */
  method HandleAddConsumption(store: AppStore, form: ConsumptionForm, eventId: Id, id: Id, now: Timestamp, modalOpen: bool)
    returns (result: HandlerResult, stillOpen: bool)
    modifies store`orders, store`items
    ensures !ValidConsumption(form) ==>
      (result == RefusedInput && stillOpen == modalOpen && store.orders == old(store.orders) && store.items == old(store.items))
    ensures ValidConsumption(form) ==>
      (&& result.Submitted?
       && result.outcome == CheckStock(old(store.items), form.itemId, form.quantityKg.value)
       && stillOpen == (modalOpen && !result.outcome.Done?)
       && store.orders == (if result.outcome.Done?
                           then old(store.orders) + [NewOrder(id, form.memberId, eventId, form.itemId, form.customerName,
                                                             form.quantityKg.value, form.amountInr.value, true, now)]
                           else old(store.orders))
       && store.items == (if result.outcome.Done? then DeductStock(old(store.items), form.itemId, form.quantityKg.value)
                          else old(store.items)))
    ensures old(store.StockInvariant()) ==> store.StockInvariant()
  {
    if ValidConsumption(form) {
      var outcome := store.AddConsumptionByHost(id, now, form.memberId, eventId, form.itemId, form.customerName,
                                                form.quantityKg.value, form.amountInr.value);
      result := Submitted(outcome);
      stillOpen := modalOpen && !outcome.Done?;
    } else {
      result := RefusedInput;
      stillOpen := modalOpen;
    }
  }
}
