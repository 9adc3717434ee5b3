/** The member's request screen: the member's own requests for the event,
    newest first, the unpaid verified ones, the request form and the controls
    each request offers. */
module MemberRequests {
  import opened Lists
  import opened Records
  import opened Selections
  import opened Store
  import opened Workflow

  /** The member's requests for the event, newest first. */
  function MyOrders(orders: seq<Order>, memberId: Id, eventId: Id): (r: seq<Order>)
    ensures forall o :: o in r <==> o in orders && o.memberId == memberId && o.eventId == eventId
    ensures forall o :: multiset(r)[o] == if o.memberId == memberId && o.eventId == eventId then multiset(orders)[o] else 0
    ensures NewestFirst(r, OrderTime)
  {
    var mine := Filter(orders, OrderOfMemberInEvent(memberId, eventId));
    FilterCount(orders, OrderOfMemberInEvent(memberId, eventId));
    var r := SortNewestFirst(mine, OrderTime);
    assert forall o :: o in r <==> o in mine by {
      forall o ensures o in r <==> o in mine {
        assert o in r <==> o in multiset(r);
      }
    }
    r
  }

  function IsUnpaidVerified(o: Order): bool
  {
    o.verified && o.paymentStatus == Baki
  }

  /** The verified requests still unpaid, in the order of the member's list. */
  function BakiPayments(myOrders: seq<Order>): (r: seq<Order>)
    ensures forall o :: o in r <==> o in myOrders && o.verified && o.paymentStatus == Baki
    ensures forall o :: multiset(r)[o] == if o.verified && o.paymentStatus == Baki then multiset(myOrders)[o] else 0
    ensures |r| <= |myOrders|
  {
    FilterCount(myOrders, IsUnpaidVerified);
    Filter(myOrders, IsUnpaidVerified)
  }

  /** Filtering keeps the list's order, so the unpaid list of a newest-first list is newest first too. */
  lemma BakiPaymentsNewestFirst(myOrders: seq<Order>)
    requires NewestFirst(myOrders, OrderTime)
    ensures NewestFirst(BakiPayments(myOrders), OrderTime)
  {
    FilterKeepsNewestFirst(myOrders, IsUnpaidVerified, OrderTime);
  }

  /** On the screen the unpaid list is taken from the member's requests, so it is newest first. */
  lemma ScreenBakiPaymentsNewestFirst(orders: seq<Order>, memberId: Id, eventId: Id)
    ensures NewestFirst(BakiPayments(MyOrders(orders, memberId, eventId)), OrderTime)
  {
    BakiPaymentsNewestFirst(MyOrders(orders, memberId, eventId));
  }

  /** The request form as submitted. A number field that does not parse is `None`. */
  datatype RequestForm = RequestForm(itemId: Id, quantityKg: Option<real>, amountInr: Option<real>, customerName: string)

  /** Which store operation a submit calls. */
  datatype RequestCall =
    | NoCall
    | CallEditOrder(orderId: Id, customerName: string, itemId: Id, quantityKg: real, amountInr: real)
    | CallAddOrder(memberId: Id, eventId: Id, itemId: Id, customerName: string, quantityKg: real, amountInr: real)

  /** The form's open state and the request being edited, if any. */
  datatype RequestModal = RequestModal(open: bool, editing: Option<Order>)

  /** An item and a customer are given, the quantity is positive, the amount is not negative, and a user
      is signed in. A field that does not parse fails its comparison. */
  predicate ValidRequest(form: RequestForm, currentUser: Option<User>)
  {
    && form.itemId != ""
    && form.quantityKg.Some? && form.quantityKg.value > 0.0
    && form.amountInr.Some? && form.amountInr.value >= 0.0
    && form.customerName != ""
    && currentUser.Some?
  }

  /** The submit handler: a valid form edits the request being edited or adds a new one, never both;
      an invalid form calls nothing. */
  function SubmitCall(form: RequestForm, currentUser: Option<User>, editing: Option<Order>, eventId: Id): (call: RequestCall)
    ensures call.NoCall? <==> !ValidRequest(form, currentUser)
    ensures call.CallEditOrder? <==> ValidRequest(form, currentUser) && editing.Some?
    ensures call.CallAddOrder? <==> ValidRequest(form, currentUser) && editing.None?
    ensures call.CallEditOrder? ==> call == CallEditOrder(editing.value.id, form.customerName, form.itemId,
                                                         form.quantityKg.value, form.amountInr.value)
    ensures call.CallAddOrder? ==> call == CallAddOrder(currentUser.value.id, eventId, form.itemId, form.customerName,
                                                       form.quantityKg.value, form.amountInr.value)
  {
    if !ValidRequest(form, currentUser) then NoCall
    else if editing.Some? then
      CallEditOrder(editing.value.id, form.customerName, form.itemId, form.quantityKg.value, form.amountInr.value)
    else
      CallAddOrder(currentUser.value.id, eventId, form.itemId, form.customerName, form.quantityKg.value, form.amountInr.value)
  }

  /** Opening or closing the form; closing also forgets the request being edited. */
  function SetModalOpen(modal: RequestModal, open: bool): (r: RequestModal)
    ensures r.open == open
    ensures !open ==> r.editing.None?
    ensures open ==> r.editing == modal.editing
  {
    if open then modal.(open := true) else RequestModal(false, None)
  }

  /** A valid submit closes the form; an invalid one leaves it as it is. */
  function ModalAfterSubmit(modal: RequestModal, form: RequestForm, currentUser: Option<User>): (r: RequestModal)
    ensures ValidRequest(form, currentUser) ==> !r.open && r.editing.None?
    ensures !ValidRequest(form, currentUser) ==> r == modal
  {
    if ValidRequest(form, currentUser) then SetModalOpen(modal, false) else modal
  }

  /** Opening the form to edit a request. */
  function OpenEdit(order: Order): (r: RequestModal)
    ensures r.open && r.editing == Some(order)
  {
    RequestModal(true, Some(order))
  }

  /** The controls a request card or row offers. */
  datatype OrderControls = OrderControls(paymentSelectEnabled: bool, editAndDelete: bool)

  /** The payment selector works only on a verified request; Edit and Delete only on an unverified one. */
  function Controls(o: Order): (c: OrderControls)
    ensures c.paymentSelectEnabled <==> o.verified
    ensures c.editAndDelete <==> !o.verified
    ensures c.paymentSelectEnabled != c.editAndDelete
  {
    OrderControls(o.verified, !o.verified)
  }

  /** Once the host verifies a request, the member can no longer edit or delete it but can now record its
      payment; while stock allows, an edit re-opens it, and it offers Edit and Delete again. */
  lemma VerificationSwitchesControls(orders: seq<Order>, orderId: Id, customerName: string, itemId: Id,
                                     quantityKg: real, amountInr: real, now: Timestamp)
    requires FindOrder(orders, orderId).Some?
    ensures var verified := FindOrder(MarkOrderVerified(orders, orderId), orderId).value;
      Controls(verified) == OrderControls(true, false) && StatusLabel(verified) == "Verified"
    ensures var edited := ApplyOrderEdit(MarkOrderVerified(orders, orderId), orderId, customerName, itemId, quantityKg, amountInr, now);
      Controls(FindOrder(edited, orderId).value) == OrderControls(false, true)
  {
    MarkedLookup(orders, orderId, FindOrder(orders, orderId).value);
    var marked := MarkOrderVerified(orders, orderId);
    EditedLookup(marked, orderId, customerName, itemId, quantityKg, amountInr, now);
  }
}
