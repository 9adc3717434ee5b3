/** The member's expense page: the member's expenses for the event, newest
    first, the add and edit forms, and the per-expense menu. */
module MemberMyExpenses {
  import opened Lists
  import opened Records
  import opened Store
  import opened HostExpenseItems

  function OwnExpenseInEvent(memberId: Id, eventId: Id): Expense -> bool
  {
    (e: Expense) => e.addedById == memberId && e.eventId == eventId
  }

  /** The member's expenses for the event, newest first. */
  function MyExpenses(expenses: seq<Expense>, memberId: Id, eventId: Id): (r: seq<Expense>)
    ensures forall e :: e in r <==> e in expenses && e.addedById == memberId && e.eventId == eventId
    ensures forall e :: multiset(r)[e] == if e.addedById == memberId && e.eventId == eventId then multiset(expenses)[e] else 0
    ensures NewestFirst(r, ExpenseTime)
  {
    FilterCount(expenses, OwnExpenseInEvent(memberId, eventId));
    var r := SortNewestFirst(Filter(expenses, OwnExpenseInEvent(memberId, eventId)), ExpenseTime);
    assert forall e :: e in r <==> e in multiset(r);
    r
  }

  /** The text in the add form's two inputs. */
  datatype ExpenseDraft = ExpenseDraft(name: string, amountText: string)

  /** Adding: forwarded as the host's form forwards it; a forwarded draft is cleared, a refused one kept. */
  function AddMyExpense(draft: ExpenseDraft, currentUser: Option<User>, eventId: Id, parsedAmount: real)
    : (r: (HandlerCall, ExpenseDraft))
    ensures r.0 != NoCall <==> draft.name != "" && draft.amountText != "" && currentUser.Some?
    ensures r.0 != NoCall ==> r.0 == CallAddExpense(currentUser.value.id, eventId, draft.name, parsedAmount)
                              && r.1 == ExpenseDraft("", "")
    ensures r.0 == NoCall ==> r.1 == draft
  {
    var call := AddExpenseSubmit(currentUser, eventId, draft.name, draft.amountText, parsedAmount);
    (call, if call != NoCall then ExpenseDraft("", "") else draft)
  }

  /** The edit modal: whether it is shown and the expense being edited. */
  datatype EditModal = EditModal(open: bool, editing: Option<Expense>)

  /** Saving the edit form: forwarded as the host's edit form forwards it; a forwarded edit closes the modal
      and clears the selection, a refused one leaves both as they were. */
  function EditMyExpense(modal: EditModal, name: string, amountText: string, parsedAmount: real)
    : (r: (HandlerCall, EditModal))
    ensures r.0 != NoCall <==> name != "" && amountText != "" && modal.editing.Some?
    ensures r.0 != NoCall ==> r.0 == CallEditExpense(modal.editing.value.id, name, parsedAmount)
                              && r.1 == EditModal(false, None)
    ensures r.0 == NoCall ==> r.1 == modal
  {
    var (call, editing) := EditMemberExpenseSubmit(modal.editing, name, amountText, parsedAmount);
    (call, if call != NoCall then EditModal(false, editing) else modal)
  }

  /** A saved edit changes only the name and amount: an expense still pending stays pending and keeps its
      menu, so the member can edit it again. */
  lemma SavedEditKeepsMenu(expenses: seq<Expense>, modal: EditModal, name: string, amountText: string, parsedAmount: real)
    requires EditMyExpense(modal, name, amountText, parsedAmount).0 != NoCall
    ensures var call := EditMyExpense(modal, name, amountText, parsedAmount).0;
      forall k :: 0 <= k < |expenses| && expenses[k].id == call.expenseId ==>
        && ApplyExpenseEdit(expenses, call.expenseId, call.name, call.amountInr)[k].name == name
        && ApplyExpenseEdit(expenses, call.expenseId, call.name, call.amountInr)[k].amountInr == parsedAmount
        && MenuOffered(ApplyExpenseEdit(expenses, call.expenseId, call.name, call.amountInr)[k]) == MenuOffered(expenses[k])
  {
  }

  /** The edit/delete menu exists only for an expense not yet verified. */
  function MenuOffered(e: Expense): (offered: bool)
    ensures offered <==> !e.verified
  {
    !e.verified
  }

  /** The menu button: pressing it on the open menu closes it, on any other expense opens that one. */
  function ToggleMenu(openMenuId: Option<Id>, expenseId: Id): (r: Option<Id>)
    ensures openMenuId == Some(expenseId) ==> r.None?
    ensures openMenuId != Some(expenseId) ==> r == Some(expenseId)
  {
    if openMenuId == Some(expenseId) then None else Some(expenseId)
  }

  /** Any click elsewhere in the window closes the menu. */
  function WindowClick(openMenuId: Option<Id>): (r: Option<Id>)
    ensures r.None?
  {
    None
  }

  /** Pressing the same button twice leaves the menus as they were, and at most one menu is ever open. */
  lemma ToggleTwiceRestores(openMenuId: Option<Id>, expenseId: Id)
    requires openMenuId.None? || openMenuId == Some(expenseId)
    ensures ToggleMenu(ToggleMenu(openMenuId, expenseId), expenseId) == openMenuId
  {
  }

  /** Deletion asks for confirmation; only a confirmed deletion removes the expense. */
  function DeleteMyExpense(expenses: seq<Expense>, expenseId: Id, confirmed: bool): (r: seq<Expense>)
    ensures confirmed ==> r == WithoutExpense(expenses, expenseId)
    ensures !confirmed ==> r == expenses
  {
    if confirmed then WithoutExpense(expenses, expenseId) else expenses
  }

  /** Once the host verifies an expense, the member's menu for it is gone, and a second verification
      changes nothing further. */
  lemma VerifiedExpenseLosesMenu(expenses: seq<Expense>, expenseId: Id)
    ensures forall k :: 0 <= k < |expenses| && expenses[k].id == expenseId ==>
      !MenuOffered(MarkExpenseVerified(expenses, expenseId)[k])
    ensures MarkExpenseVerified(MarkExpenseVerified(expenses, expenseId), expenseId) == MarkExpenseVerified(expenses, expenseId)
  {
    VerifyExpenseIdempotent(expenses, expenseId);
  }
}
