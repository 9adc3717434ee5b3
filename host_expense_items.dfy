/** The host's expenses and items screen: the event's expenses split into the
    host's own and the members', the event's expense total, the verified totals
    per member, each item's total stock, and the form handlers. */
module HostExpenseItems {
  import opened Lists
  import opened Records
  import opened Selections
  import opened Store
  import opened Workflow

  function ExpenseInEvent(eventId: Id): Expense -> bool
  {
    (e: Expense) => e.eventId == eventId
  }

  function AddedBy(userId: Id): Expense -> bool
  {
    (e: Expense) => e.addedById == userId
  }

  /** The expenses of the event, in list order. */
  function EventExpenses(expenses: seq<Expense>, eventId: Id): (r: seq<Expense>)
    ensures forall e :: e in r <==> e in expenses && e.eventId == eventId
    ensures forall e :: multiset(r)[e] == if e.eventId == eventId then multiset(expenses)[e] else 0
  {
    FilterCount(expenses, ExpenseInEvent(eventId));
    Filter(expenses, ExpenseInEvent(eventId))
  }

  /** The signed-in host's own expenses for the event, in list order. */
  function HostExpenses(eventExpenses: seq<Expense>, hostId: Id): (r: seq<Expense>)
    ensures forall e :: e in r <==> e in eventExpenses && e.addedById == hostId
  {
    Filter(eventExpenses, AddedBy(hostId))
  }

  /** Everybody else's expenses for the event, newest first. */
  function MemberExpenses(eventExpenses: seq<Expense>, hostId: Id): (r: seq<Expense>)
    ensures forall e :: e in r <==> e in eventExpenses && e.addedById != hostId
    ensures NewestFirst(r, ExpenseTime)
  {
    var others := Filter(eventExpenses, Not(AddedBy(hostId)));
    var r := SortNewestFirst(others, ExpenseTime);
    assert forall e :: e in r <==> e in multiset(r);
    r
  }

  /** The two lists split the event's expenses: every expense lands in exactly one of them, as often as
      it occurs. */
  lemma {:induction false} ExpensesPartition(eventExpenses: seq<Expense>, hostId: Id)
    ensures multiset(HostExpenses(eventExpenses, hostId)) + multiset(MemberExpenses(eventExpenses, hostId))
            == multiset(eventExpenses)
  {
    FilterCount(eventExpenses, AddedBy(hostId));
    FilterCount(eventExpenses, Not(AddedBy(hostId)));
    var mine, others := HostExpenses(eventExpenses, hostId), MemberExpenses(eventExpenses, hostId);
    assert forall e :: multiset(others)[e] == multiset(Filter(eventExpenses, Not(AddedBy(hostId))))[e];
    assert forall e :: (multiset(mine) + multiset(others))[e] == multiset(eventExpenses)[e];
  }

  function CountsTowardTotal(hostId: Id): Expense -> bool
  {
    (e: Expense) => e.verified || e.addedById == hostId
  }

  function IsVerifiedExpense(e: Expense): bool
  {
    e.verified
  }

  /** The event's expense total: the verified expenses and the host's own. */
  function TotalEventExpenses(eventExpenses: seq<Expense>, hostId: Id): real
  {
    Sum(Filter(eventExpenses, CountsTowardTotal(hostId)), ExpenseAmount)
  }

  /** The total is the host's own expenses, verified or not, plus the members' verified expenses. */
  lemma TotalIsHostPlusVerifiedMembers(eventExpenses: seq<Expense>, hostId: Id)
    ensures TotalEventExpenses(eventExpenses, hostId)
            == Sum(HostExpenses(eventExpenses, hostId), ExpenseAmount)
               + Sum(Filter(MemberExpenses(eventExpenses, hostId), IsVerifiedExpense), ExpenseAmount)
  {
    var counted := Filter(eventExpenses, CountsTowardTotal(hostId));
    var mine := HostExpenses(eventExpenses, hostId);
    var verifiedOthers := Filter(MemberExpenses(eventExpenses, hostId), IsVerifiedExpense);
    CountedSplits(eventExpenses, hostId);
    assert multiset(mine + verifiedOthers) == multiset(mine) + multiset(verifiedOthers);
    SumOfPermutation(counted, mine + verifiedOthers, ExpenseAmount);
    SumAppend(mine, verifiedOthers, ExpenseAmount);
  }

  /** The expenses that count toward the total are, as a multiset, the host's own plus the members'
      verified ones. */
  lemma CountedSplits(eventExpenses: seq<Expense>, hostId: Id)
    ensures multiset(Filter(eventExpenses, CountsTowardTotal(hostId)))
            == multiset(HostExpenses(eventExpenses, hostId))
               + multiset(Filter(MemberExpenses(eventExpenses, hostId), IsVerifiedExpense))
  {
    var others := MemberExpenses(eventExpenses, hostId);
    FilterCount(eventExpenses, CountsTowardTotal(hostId));
    FilterCount(eventExpenses, AddedBy(hostId));
    MemberExpensesCount(eventExpenses, hostId);
    FilterCount(others, IsVerifiedExpense);
  }

  /** Each expense of somebody other than the host is among the members' expenses as often as it occurs. */
  lemma MemberExpensesCount(eventExpenses: seq<Expense>, hostId: Id)
    ensures forall e :: multiset(MemberExpenses(eventExpenses, hostId))[e]
                        == if e.addedById != hostId then multiset(eventExpenses)[e] else 0
  {
    FilterCount(eventExpenses, Not(AddedBy(hostId)));
  }

  /** One line of the members' expense summary. */
  datatype MemberTotal = MemberTotal(memberName: string, totalAmount: real)

  /** The summary dictionary keyed by member id, with its keys in insertion order. */
  datatype TotalsTable = TotalsTable(keys: seq<Id>, entries: map<Id, MemberTotal>)

  /** One step of the `forEach`: an expense whose author is a known user adds its amount to that user's
      entry, created with the user's name and a zero total on first use; other expenses are skipped. */
  function AddToTotals(t: TotalsTable, e: Expense, users: seq<User>): TotalsTable
  {
    match FindUser(users, e.addedById)
    case None => t
    case Some(member) =>
      var entry := if member.id in t.entries then t.entries[member.id] else MemberTotal(member.name, 0.0);
      TotalsTable(if member.id in t.entries then t.keys else t.keys + [member.id],
                  t.entries[member.id := entry.(totalAmount := entry.totalAmount + e.amountInr)])
  }

  function Totals(expenses: seq<Expense>, users: seq<User>): TotalsTable
  {
    if |expenses| == 0 then TotalsTable([], map[])
    else AddToTotals(Totals(expenses[..|expenses| - 1], users), expenses[|expenses| - 1], users)
  }

  predicate WellFormedTotals(t: TotalsTable)
  {
    && (forall i, j :: 0 <= i < j < |t.keys| ==> t.keys[i] != t.keys[j])
    && (forall k :: 0 <= k < |t.keys| ==> t.keys[k] in t.entries)
    && (forall id :: id in t.entries ==> id in t.keys)
  }

  /** An expense is counted for a member when its author is that member and is a known user. */
  function PaidBy(users: seq<User>, memberId: Id): Expense -> bool
  {
    (e: Expense) => e.addedById == memberId && FindUser(users, e.addedById).Some?
  }

  lemma AddToTotalsWellFormed(t: TotalsTable, e: Expense, users: seq<User>)
    requires WellFormedTotals(t)
    ensures WellFormedTotals(AddToTotals(t, e, users))
  {
  }

  lemma AddToTotalsEntry(t: TotalsTable, e: Expense, users: seq<User>, memberId: Id)
    ensures var after := AddToTotals(t, e, users);
      && (memberId in after.entries <==> memberId in t.entries || PaidBy(users, memberId)(e))
      && (memberId in after.entries ==>
           after.entries[memberId].totalAmount
           == (if memberId in t.entries then t.entries[memberId].totalAmount else 0.0)
              + (if PaidBy(users, memberId)(e) then e.amountInr else 0.0))
  {
    var member := FindUser(users, e.addedById);
    if member.Some? {
      assert member.value.id == e.addedById;
    }
  }

  lemma TotalsStep(init: seq<Expense>, last: Expense, before: TotalsTable, after: TotalsTable, paid: Expense -> bool, memberId: Id)
    requires memberId in after.entries <==> memberId in before.entries || paid(last)
    requires memberId in after.entries ==>
      after.entries[memberId].totalAmount
      == (if memberId in before.entries then before.entries[memberId].totalAmount else 0.0) + (if paid(last) then last.amountInr else 0.0)
    requires memberId in before.entries <==> Filter(init, paid) != []
    requires memberId in before.entries ==> before.entries[memberId].totalAmount == Sum(Filter(init, paid), ExpenseAmount)
    ensures memberId in after.entries <==> Filter(init + [last], paid) != []
    ensures memberId in after.entries ==> after.entries[memberId].totalAmount == Sum(Filter(init + [last], paid), ExpenseAmount)
  {
    assert (init + [last])[..|init|] == init;
    assert Filter(init + [last], paid) == Filter(init, paid) + (if paid(last) then [last] else []);
    SumFilterSnoc(init, last, paid, ExpenseAmount);
  }

  /** The summary has an entry exactly for each known user who paid one of the expenses, totalling exactly
      that user's expenses; expenses by unknown users count for nobody. */
  lemma {:induction false} TotalsSumPerMember(expenses: seq<Expense>, users: seq<User>)
    ensures WellFormedTotals(Totals(expenses, users))
    ensures forall id :: id in Totals(expenses, users).entries <==> Filter(expenses, PaidBy(users, id)) != []
    ensures forall id :: id in Totals(expenses, users).entries ==>
      Totals(expenses, users).entries[id].totalAmount == Sum(Filter(expenses, PaidBy(users, id)), ExpenseAmount)
  {
    if |expenses| > 0 {
      var init, last := expenses[..|expenses| - 1], expenses[|expenses| - 1];
      assert expenses == init + [last];
      TotalsSumPerMember(init, users);
      var before, after := Totals(init, users), Totals(expenses, users);
      AddToTotalsWellFormed(before, last, users);
      forall id
        ensures id in after.entries <==> Filter(expenses, PaidBy(users, id)) != []
        ensures id in after.entries ==> after.entries[id].totalAmount == Sum(Filter(expenses, PaidBy(users, id)), ExpenseAmount)
      {
        AddToTotalsEntry(before, last, users, id);
        TotalsStep(init, last, before, after, PaidBy(users, id), id);
      }
    }
  }

  function TotalsRows(t: TotalsTable): (rows: seq<MemberTotal>)
    requires WellFormedTotals(t)
    ensures |rows| == |t.keys|
    ensures forall id :: id in t.entries ==> t.entries[id] in rows
  {
    var rows := seq(|t.keys|, k requires 0 <= k < |t.keys| => t.entries[t.keys[k]]);
    assert forall id :: id in t.entries ==> exists k :: 0 <= k < |t.keys| && t.keys[k] == id && rows[k] == t.entries[id];
    rows
  }

  /** Every table the loop builds keeps its ids listed once and in step with the dictionary. */
  lemma {:induction false} TotalsWellFormed(expenses: seq<Expense>, users: seq<User>)
    ensures WellFormedTotals(Totals(expenses, users))
  {
    if |expenses| > 0 {
      TotalsWellFormed(expenses[..|expenses| - 1], users);
      AddToTotalsWellFormed(Totals(expenses[..|expenses| - 1], users), expenses[|expenses| - 1], users);
    }
  }

  /** Running one more step of the `forEach` extends the totals by that expense. */
  lemma TotalsPrefix(expenses: seq<Expense>, i: nat, users: seq<User>)
    requires i < |expenses|
    ensures Totals(expenses[..i + 1], users) == AddToTotals(Totals(expenses[..i], users), expenses[i], users)
  {
    assert expenses[..i + 1][..i] == expenses[..i];
  }

  /** The body of the `forEach` in `memberTotalExpenses`: a known author gets an entry, created with the
      name and a zero total on first use, and the expense's amount is added to it. */
  method AddExpenseToTotals(keys: seq<Id>, summary: map<Id, MemberTotal>, exp: Expense, users: seq<User>)
    returns (keys': seq<Id>, summary': map<Id, MemberTotal>)
    ensures TotalsTable(keys', summary') == AddToTotals(TotalsTable(keys, summary), exp, users)
  {
    keys', summary' := keys, summary;
    var member := FindUser(users, exp.addedById);
    if member.Some? {
      var entry := if member.value.id in summary then summary[member.value.id] else MemberTotal(member.value.name, 0.0);
      if member.value.id !in summary {
        keys' := keys + [member.value.id];
      }
      summary' := summary[member.value.id := entry.(totalAmount := entry.totalAmount + exp.amountInr)];
    }
  }

  /** `memberTotalExpenses`: the `forEach` over the members' verified expenses, building the dictionary in
      place, then its values. */
  method MemberTotalExpenses(memberExpenses: seq<Expense>, users: seq<User>) returns (rows: seq<MemberTotal>)
    ensures WellFormedTotals(Totals(Filter(memberExpenses, IsVerifiedExpense), users))
    ensures rows == TotalsRows(Totals(Filter(memberExpenses, IsVerifiedExpense), users))
  {
    var verifiedExpenses := Filter(memberExpenses, IsVerifiedExpense);
    var keys: seq<Id> := [];
    var summary: map<Id, MemberTotal> := map[];
    for i := 0 to |verifiedExpenses|
      invariant TotalsTable(keys, summary) == Totals(verifiedExpenses[..i], users)
    {
      keys, summary := AddExpenseToTotals(keys, summary, verifiedExpenses[i], users);
      TotalsPrefix(verifiedExpenses, i, users);
    }
    assert verifiedExpenses[..|verifiedExpenses|] == verifiedExpenses;
    TotalsWellFormed(verifiedExpenses, users);
    rows := seq(|keys|, k requires 0 <= k < |keys| => summary[keys[k]]);
  }

  /** An item's total stock: what is left plus what the event's verified orders consumed. */
  function TotalStock(item: Item, orders: seq<Order>, eventId: Id): real
  {
    item.availableStockKg + Consumed(orders, item.id, Some(eventId))
  }

  /** Verifying a pending request of the event moves its quantity from the available stock to the consumed
      stock: the item's total stock stays the same. */
  lemma VerifyKeepsTotalStock(orders: seq<Order>, items: seq<Item>, orderId: Id, eventId: Id)
    requires DistinctOrderIds(orders)
    requires FindOrder(orders, orderId).Some?
    requires var o := FindOrder(orders, orderId).value;
      && !o.verified && o.eventId == eventId
      && FindItem(items, o.itemId).Some? && o.quantityKg <= FindItem(items, o.itemId).value.availableStockKg
    ensures var o := FindOrder(orders, orderId).value;
      && VerifyCheck(orders, items, orderId) == Done
      && TotalStock(FindItem(StockAfterVerify(orders, items, orderId), o.itemId).value, MarkOrderVerified(orders, orderId), eventId)
         == TotalStock(FindItem(items, o.itemId).value, orders, eventId)
  {
    var o := FindOrder(orders, orderId).value;
    VerifyStep(orders, items, orderId, o, FindItem(items, o.itemId).value);
    VerifyingAddsConsumption(orders, orderId, o.itemId, Some(eventId));
  }

  /** The store does not stop a second verification: verifying an already verified request of the event
      deducts its quantity again but counts no further consumption, so the item's total stock shrinks by
      the quantity. Only the screens, which offer Verify for unverified requests alone, prevent this. */
  lemma VerifyAgainShrinksTotalStock(orders: seq<Order>, items: seq<Item>, orderId: Id, eventId: Id)
    requires DistinctOrderIds(orders)
    requires FindOrder(orders, orderId).Some?
    requires var o := FindOrder(orders, orderId).value;
      && o.verified
      && FindItem(items, o.itemId).Some? && o.quantityKg <= FindItem(items, o.itemId).value.availableStockKg
    ensures var o := FindOrder(orders, orderId).value;
      && VerifyCheck(orders, items, orderId) == Done
      && TotalStock(FindItem(StockAfterVerify(orders, items, orderId), o.itemId).value, MarkOrderVerified(orders, orderId), eventId)
         == TotalStock(FindItem(items, o.itemId).value, orders, eventId) - o.quantityKg
  {
    var o := FindOrder(orders, orderId).value;
    VerifyStep(orders, items, orderId, o, FindItem(items, o.itemId).value);
    VerifyingAgainAddsNothing(orders, orderId, o.itemId, Some(eventId));
  }

  /** The store operation a form handler calls, if any, with the number it parsed from its text. */
  datatype HandlerCall =
    | NoCall
    | CallAddItem(eventId: Id, name: string, stockKg: real)
    | CallAddStock(itemId: Id, amountKg: real)
    | CallEditItemStock(itemId: Id, newStockKg: real)
    | CallAddExpense(addedById: Id, eventId: Id, name: string, amountInr: real)
    | CallEditExpense(expenseId: Id, name: string, amountInr: real)

  /** New item: forwarded when the name and the stock text are both non-empty; the modal then closes. */
  function AddItemSubmit(eventId: Id, name: string, stockText: string, parsedStock: real): (call: HandlerCall)
    ensures call != NoCall <==> name != "" && stockText != ""
    ensures call != NoCall ==> call == CallAddItem(eventId, name, parsedStock)
  {
    if name != "" && stockText != "" then CallAddItem(eventId, name, parsedStock) else NoCall
  }

  /** Add stock: forwarded when the amount text is non-empty and an item is selected. */
  function AddStockSubmit(selected: Option<Item>, amountText: string, parsedAmount: real): (call: HandlerCall)
    ensures call != NoCall <==> amountText != "" && selected.Some?
    ensures call != NoCall ==> call == CallAddStock(selected.value.id, parsedAmount)
  {
    if amountText != "" && selected.Some? then CallAddStock(selected.value.id, parsedAmount) else NoCall
  }

  /** Edit stock: forwarded when the amount text is non-empty and an item is selected. */
  function EditStockSubmit(selected: Option<Item>, amountText: string, parsedAmount: real): (call: HandlerCall)
    ensures call != NoCall <==> amountText != "" && selected.Some?
    ensures call != NoCall ==> call == CallEditItemStock(selected.value.id, parsedAmount)
  {
    if amountText != "" && selected.Some? then CallEditItemStock(selected.value.id, parsedAmount) else NoCall
  }

  /** New expense: forwarded when the name and amount are non-empty and a user is signed in. */
  function AddExpenseSubmit(currentUser: Option<User>, eventId: Id, name: string, amountText: string, parsedAmount: real)
    : (call: HandlerCall)
    ensures call != NoCall <==> name != "" && amountText != "" && currentUser.Some?
    ensures call != NoCall ==> call == CallAddExpense(currentUser.value.id, eventId, name, parsedAmount)
  {
    if name != "" && amountText != "" && currentUser.Some? then CallAddExpense(currentUser.value.id, eventId, name, parsedAmount)
    else NoCall
  }

  /** Editing a member's expense: forwarded when the name and amount are non-empty and an expense is being
      edited; the selection is then cleared. */
  function EditMemberExpenseSubmit(editing: Option<Expense>, name: string, amountText: string, parsedAmount: real)
    : (r: (HandlerCall, Option<Expense>))
    ensures r.0 != NoCall <==> name != "" && amountText != "" && editing.Some?
    ensures r.0 != NoCall ==> r.0 == CallEditExpense(editing.value.id, name, parsedAmount) && r.1.None?
    ensures r.0 == NoCall ==> r.1 == editing
  {
    if name != "" && amountText != "" && editing.Some? then (CallEditExpense(editing.value.id, name, parsedAmount), None)
    else (NoCall, editing)
  }

  /** The handlers check only that the text is there, not its sign: any amount typed into the add-stock
      form is forwarded, and an amount more negative than the stock leaves the item with negative stock. */
  lemma NegativeStockIsForwarded(item: Item, amountText: string, amountKg: real)
    requires amountText != ""
    requires item.availableStockKg + amountKg < 0.0
    ensures AddStockSubmit(Some(item), amountText, amountKg) == CallAddStock(item.id, amountKg)
    ensures !NonNegativeStock(AdjustStock([item], item.id, amountKg))
  {
    assert AdjustStock([item], item.id, amountKg)[0].availableStockKg == item.availableStockKg + amountKg;
  }

  /** The actions a member expense offers. */
  datatype ExpenseActions = ExpenseActions(verify: bool, edit: bool)

  /** Verify is offered for an unverified expense only; Edit for every expense. */
  function ActionsFor(e: Expense): (a: ExpenseActions)
    ensures a.verify <==> !e.verified
    ensures a.edit
  {
    ExpenseActions(!e.verified, true)
  }

  /** After verification every expense with the id offers Edit only. */
  lemma VerifiedExpenseOffersEditOnly(expenses: seq<Expense>, expenseId: Id)
    ensures forall k :: 0 <= k < |expenses| && expenses[k].id == expenseId ==>
      ActionsFor(MarkExpenseVerified(expenses, expenseId)[k]) == ExpenseActions(false, true)
  {
  }
}
