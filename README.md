# Sainath app: stock consumption and verification, modelled in Dafny

The app runs the sales of a sweets co-operative across events such as Diwali or Rakhi. A host creates items with
a stock in kilograms. Members ask for stock for their customers (a *request*, an order with `verified = false`).
The host verifies a request, which re-checks the stock and deducts the quantity, or the host enters a
consumption directly, already verified. Members record how each sale was paid (Baki, Cash or Online), log
expenses, and keep notes. The screens show filtered, grouped and summed views of the same records.

The project models:

- the records of `types.ts` as datatypes (`Records`);
- the provider state of `context/AppContext.tsx` as the class `Store.AppStore`, one method per operation. Each
  method returns an outcome instead of showing a notification. The per-record updates (`map` with spread,
  `filter`, append) are pure functions beside it;
- the workflow across several operations (`Workflow`, `Selections`): verification re-checks and deducts, a
  second verification is not stopped by the store, an edit re-opens verification, and a direct entry is a
  request verified on the spot;
- every screen's derived view and form guard, one module per view file. The two dictionary-building loops
  (`memberConsumptionSummary`, `memberTotalExpenses`) and the payment-status buckets are methods with loops,
  proved against fold functions;
- the CSV text of the two exports, with a reader for the quoting rules of section 2 of RFC 4180, which is
  the partner of the escaping.

Ids, timestamps, the password hash, date and number formatting, and parsed form numbers are parameters.
Timestamps are milliseconds since the epoch. Kilograms and rupees are `real`.

Files: `lists.dfy` (filter, sum, find and newest-first sort over sequences), `records.dfy`, `text.dfy`
(case folding, trimming, CSV), `store.dfy`, `workflow.dfy`, `selections.dfy`, and one file per screen.

## Model

| member | source | states |
|---|---|---|
| Records.StatusLabel | pages/member/views/MemberRequests.tsx:70 | "Verified" exactly for verified orders, "Pending (Edited)" exactly for unverified edited ones, "Pending" otherwise; an absent `edited` counts as not edited |
| Store.CheckStock | context/AppContext.tsx:182-191 | fails with ItemNotFound exactly when no item has the id; otherwise passes or fails with InsufficientStock |
| Store.CheckStockPasses | context/AppContext.tsx:182-191 | the check passes exactly when the first item with the id holds at least the quantity |
| Store.CheckStockWithDistinctIds | context/AppContext.tsx:182-191 | with distinct item ids, the check passes exactly when that item's stock is at least the quantity |
| Store.AdjustStock | context/AppContext.tsx:173-175 | every item with the id gains the amount; id, event and name are kept; every other item is unchanged |
| Store.DeductStock | context/AppContext.tsx:224 | every item with the id loses the quantity; every other item is unchanged |
| Store.SetStock | context/AppContext.tsx:177-179 | every item with the id gets the new stock; every other item is unchanged |
| Store.DeductionKeepsStockNonNegative | context/AppContext.tsx:210-224 | with distinct ids and no negative stock, a deduction after a passing check leaves no stock negative |
| Store.VerifyCheck | context/AppContext.tsx:247-262 | fails with OrderNotFound exactly when no order has the id; otherwise it is the stock check for that order's item and quantity |
| Store.StockAfterVerify | context/AppContext.tsx:247-267 | a failed verification leaves the stock as it was |
| Store.MarkOrderVerified | context/AppContext.tsx:264 | every order with the id becomes verified and not edited; every other order is unchanged |
| Store.ApplyOrderEdit | context/AppContext.tsx:240 | the order with the id gets the new customer, item, quantity, amount and time, unverified and edited; ids and owner are kept; every other order is unchanged |
| Store.SetPaymentStatus | context/AppContext.tsx:273-275 | only the orders with the id change, and only their payment status |
| Store.WithoutOrder | context/AppContext.tsx:243-245 | exactly the orders without the id remain, each as often as before |
| Store.WithoutOrderKeepsOrder | context/AppContext.tsx:243-245 | removal works piece by piece over a concatenation, keeping each order with another id and dropping each with the id, so the remaining orders keep their order |
| Store.WithoutAbsentOrder | context/AppContext.tsx:243-245 | deleting an id no order has changes nothing |
| Store.ApplyExpenseEdit | context/AppContext.tsx:290-292 | only name and amount of the expense change; `verified` and the other expenses are kept |
| Store.MarkExpenseVerified | context/AppContext.tsx:298-300 | the expense becomes verified; every other expense is unchanged |
| Store.VerifyExpenseIdempotent | context/AppContext.tsx:298-300 | verifying an expense twice is the same as verifying it once |
| Store.WithoutExpense | context/AppContext.tsx:294-296 | exactly the expenses without the id remain, each as often as before |
| Store.WithoutExpenseKeepsOrder | context/AppContext.tsx:294-296 | the remaining expenses keep their order: removal works piece by piece over a concatenation |
| Store.ApplyNoteEdit | context/AppContext.tsx:330-336 | the note gets the new content, image list and time; ids, member and event are kept; other notes are unchanged |
| Store.WithoutNote | context/AppContext.tsx:338-340 | exactly the notes without the id remain, each as often as before |
| Store.WithoutNoteKeepsOrder | context/AppContext.tsx:338-340 | the remaining notes keep their order: removal works piece by piece over a concatenation |
| Store.EmailTaken | context/AppContext.tsx:133 | true exactly when some user's email equals the given one ignoring case |
| Store.EmailTakenByOther | context/AppContext.tsx:363 | true exactly when a user with another id has the email, ignoring case |
| Store.FindAccount | context/AppContext.tsx:114 | a found account has the email (ignoring case) and the password hash; none is found exactly when no user has both |
| Store.ApproveUser | context/AppContext.tsx:149-151 | the user with the id becomes approved; every other user is unchanged |
| Store.ReplaceEmail | context/AppContext.tsx:369 | the user with the id gets the new email; every other user is unchanged |
| Store.AppStore.constructor | context/AppContext.tsx:69-76 | the store starts empty, with nobody signed in |
| Store.AppStore.Login | context/AppContext.tsx:111-125 | unknown credentials and a pending account are refused; only an approved account becomes the current user |
| Store.AppStore.RequestToJoin | context/AppContext.tsx:131-147 | refused without change when the email is taken (ignoring case); otherwise exactly one pending member is appended, with the default password when none is given |
| Store.AppStore.ApproveMember | context/AppContext.tsx:149-151 | the users list becomes the one with that member approved |
| Store.AppStore.ChangeEmail | context/AppContext.tsx:351-377 | succeeds exactly when the user exists, the password matches and no other user has the email; only then are the user and the signed-in copy updated |
| Store.AppStore.AddItem | context/AppContext.tsx:163-171 | appends the item as given; the stock invariant is kept only for a fresh id and a non-negative stock |
| Store.AppStore.AddStock | context/AppContext.tsx:173-175 | the items become the adjusted list; the stock invariant is kept for a non-negative amount |
| Store.AppStore.EditItemStock | context/AppContext.tsx:177-179 | the items become the overwritten list; the stock invariant is kept for a non-negative value |
| Store.AppStore.AddOrder | context/AppContext.tsx:181-201 | outcome is the stock check; on success exactly one unverified Baki order is appended, otherwise the orders are unchanged; stock is never touched |
| Store.AppStore.AddConsumptionByHost | context/AppContext.tsx:203-226 | outcome is the stock check; on success one verified Baki order is appended and the quantity deducted from that item; otherwise nothing changes; no stock becomes negative |
| Store.AppStore.EditOrder | context/AppContext.tsx:228-241 | outcome is the check of the new item and quantity; on success the order is overwritten, unverified and edited, without ownership or verified check; stock is not touched |
| Store.AppStore.DeleteOrder | context/AppContext.tsx:243-245 | the orders become the list without the id |
| Store.AppStore.RejectOrder | context/AppContext.tsx:269-271 | rejection removes the order exactly as deletion does |
| Store.AppStore.VerifyOrder | context/AppContext.tsx:247-267 | outcome is the lookup and stock check; on success the order is marked and its item's stock deducted, otherwise nothing changes; no stock becomes negative; `verified` is not consulted |
| Store.AppStore.UpdateOrderPaymentStatus | context/AppContext.tsx:273-275 | only the payment status of the order changes, verified or not |
| Store.AutoVerified | context/AppContext.tsx:284 | an expense is verified on creation exactly when the signed-in user is a host; stated by the ensures of AppStore.AddExpense |
| Store.AppStore.AddExpense | context/AppContext.tsx:277-288 | appends one expense, verified exactly when the signed-in user is a host |
| Store.AppStore.EditExpense | context/AppContext.tsx:290-292 | the expenses become the edited list |
| Store.AppStore.DeleteExpense | context/AppContext.tsx:294-296 | the expenses become the list without the id |
| Store.AppStore.VerifyExpense | context/AppContext.tsx:298-300 | the expenses become the list with that expense verified |
| Store.AppStore.AddNote | context/AppContext.tsx:318-328 | appends exactly one note |
| Store.AppStore.EditNote | context/AppContext.tsx:330-336 | the notes become the edited list |
| Store.AppStore.DeleteNote | context/AppContext.tsx:338-340 | the notes become the list without the id |
| Text.LowerChar | context/AppContext.tsx:114 | the result is never an upper-case letter; an upper-case letter maps to its lower-case partner, anything else to itself |
| Text.Lower | context/AppContext.tsx:114 | same length, no upper-case letter, other characters kept |
| Text.LowerIdempotent | context/AppContext.tsx:114 | lower-casing twice is lower-casing once |
| Text.SameEmailIgnoresCase | context/AppContext.tsx:133 | two emails match exactly when they have equal length and agree letter by letter up to case |
| Text.Trim | pages/member/views/MemberMyOrderNotes.tsx:31 | the trimmed text starts and ends with a non-space; it is empty exactly when the text is all spaces |
| Text.ReadQuotedDoubled | pages/host/views/HostPreviousData.tsx:49 | reading a quoted field whose quotes were doubled gives back the original text |
| Text.ReadEscapedField | pages/host/views/HostPreviousData.tsx:46-52 | reading an escaped field gives back the original value, quoted or not |
| Text.EscapeCsv | pages/host/views/HostPreviousData.tsx:46-52 | a value is written unchanged exactly when it holds no ',', '"' or newline; ReadEscapedField states that every escaped value reads back as itself, and PlainJoinIsCsvLine that plain values give the plain join |
| Text.CsvLine | pages/host/views/HostPreviousData.tsx:54-55 | the escaped values joined with ','; its meaning is stated by CsvLineRoundTrip: reading the line back gives exactly the values |
| Text.PlainJoinIsCsvLine | pages/host/views/HostPreviousData.tsx:48-51 | fields without ',', '"' or newline are left unchanged by the escaping |
| Text.CsvLineRoundTrip | pages/host/views/HostPreviousData.tsx:54-55 | reading an escaped, comma-joined line gives back exactly the fields |
| Text.CsvDocument | pages/host/views/HostPreviousData.tsx:43-44 | no document exactly when there are no rows |
| Text.CsvDocumentLines | pages/host/views/HostPreviousData.tsx:54-56 | the document is the header line and one line per row joined by newlines, and every line reads back as its fields |
| Workflow.VerifyStep | context/AppContext.tsx:247-267 | when the order's item holds enough, verification passes, deducts exactly the quantity, and the item is found again with that much less |
| Workflow.VerifyTwiceDeductsTwice | context/AppContext.tsx:247-267 | an already verified order passes verification again and its quantity is deducted a second time |
| Workflow.VerificationRace | context/AppContext.tsx:181-201 | two requests each within stock but together over it: the first verifies, the second is refused for insufficient stock, and only the first is deducted |
| Workflow.ConsumptionIsRequestThenVerify | context/AppContext.tsx:203-226 | a direct entry has the outcome, stock and orders of a request verified on the spot, up to the `edited` flag |
| Workflow.EditReopensVerification | context/AppContext.tsx:228-241 | after an edit the order shows "Pending (Edited)"; verifying it checks and deducts the new item and quantity and then shows "Verified" |
| Selections.EventItems | pages/member/views/MemberMainDashboard.tsx:14 | exactly the items of the event, each as often as in the list |
| Selections.MarkVerifiedConsumption | context/AppContext.tsx:264 | marking an order verified adds its quantity to the item's consumption exactly when it was unverified and matches |
| Selections.VerifyingAddsConsumption | context/AppContext.tsx:247-267 | verifying an unverified request adds its quantity to the consumption of its item, and no other |
| Selections.VerifyingAgainAddsNothing | context/AppContext.tsx:247-267 | verifying an already verified order changes no consumption figure |
| MemberRequests.MyOrders | pages/member/views/MemberRequests.tsx:24-25 | exactly the member's orders for the event, each as often as in the list, newest first |
| MemberRequests.BakiPayments | pages/member/views/MemberRequests.tsx:27 | exactly the verified orders still on Baki, each as often as in the member's list |
| MemberRequests.BakiPaymentsNewestFirst | pages/member/views/MemberRequests.tsx:27 | filtering a newest-first list keeps it newest first |
| MemberRequests.ScreenBakiPaymentsNewestFirst | pages/member/views/MemberRequests.tsx:24-27 | the unpaid list, taken from the member's sorted requests, is newest first |
| MemberRequests.SubmitCall | pages/member/views/MemberRequests.tsx:35-51 | nothing is called unless item and customer are non-empty, quantity > 0 and amount >= 0 and someone is signed in; then editOrder exactly when an order is being edited, addOrder otherwise, with the form's values |
| MemberRequests.SetModalOpen | pages/member/views/MemberRequests.tsx:29-33 | closing the form clears the order being edited; opening keeps it |
| MemberRequests.ModalAfterSubmit | pages/member/views/MemberRequests.tsx:49 | a valid submit closes the form and clears the edit; an invalid one changes nothing |
| MemberRequests.OpenEdit | pages/member/views/MemberRequests.tsx:59-62 | opening an edit shows the form with that order |
| MemberRequests.Controls | pages/member/views/MemberRequests.tsx:103-108 | the payment selector is enabled exactly for verified orders, Edit and Delete exactly for unverified ones |
| MemberRequests.VerificationSwitchesControls | pages/member/views/MemberRequests.tsx:191-202 | after verification an order offers the payment selector and no Edit or Delete; after an edit it offers Edit and Delete again |
| HostRequests.EventOrders | pages/host/views/HostRequests.tsx:18-27 | the event's orders, on the chosen UTC day if one is given, each as often as in the list, newest first |
| HostRequests.DayFilterNarrows | pages/host/views/HostRequests.tsx:21-24 | the day filter only removes orders, and keeps every event order of that day |
| HostRequests.VerifyAndRejectOffered | pages/host/views/HostRequests.tsx:70-75 | Verify and Reject are offered exactly for orders not labelled "Verified" |
| HostRequests.VerifyAndRejectWithdrawn | pages/host/views/HostRequests.tsx:136-141 | a verified order no longer offers Verify or Reject, and a rejected one is no longer listed |
| HostMainDashboard.UnverifiedOrders | pages/host/views/HostMainDashboard.tsx:18 | exactly the event's unverified orders, each as often as in the list |
| HostMainDashboard.TotalStockConsumed | pages/host/views/HostMainDashboard.tsx:20-26 | the kilograms of the item's verified orders in any event; its meaning is stated by ConsumptionCountsVerifiedOrdersOfItem |
| HostMainDashboard.ConsumptionCountsVerifiedOrdersOfItem | pages/host/views/HostMainDashboard.tsx:20-26 | consumption plus the quantities of all other orders is the total quantity, over every event; it is zero when no verified order has the item |
| HostMainDashboard.SummaryKeyInjective | pages/host/views/HostMainDashboard.tsx:39 | for member ids of equal length, two member-item keys are equal exactly when both ids are |
| HostMainDashboard.SummarizeTotals | pages/host/views/HostMainDashboard.tsx:28-50 | there is an entry exactly for each key some verified order feeds, with quantity and amount the sums over those orders; orders with an unknown member or item feed none |
| HostMainDashboard.SummaryRows | pages/host/views/HostMainDashboard.tsx:49 | one row per listed key, and every entry appears among the rows |
| HostMainDashboard.AddOrderToSummary | pages/host/views/HostMainDashboard.tsx:33-47 | one pass of the loop body is one step of the summary fold: with member and item found, their entry (zero totals on first use, key listed once) gains the order's kilograms and rupees; otherwise the dictionary is unchanged |
| HostMainDashboard.MemberConsumptionSummary | pages/host/views/HostMainDashboard.tsx:28-50 | the loop builds exactly the fold of the event's verified orders, well formed, and returns its entries in first-use order |
| HostExpenseItems.EventExpenses | pages/host/views/HostExpenseAndItems.tsx:34 | exactly the expenses of the event, each as often as in the list |
| HostExpenseItems.HostExpenses | pages/host/views/HostExpenseAndItems.tsx:35 | exactly the event's expenses added by the host |
| HostExpenseItems.MemberExpenses | pages/host/views/HostExpenseAndItems.tsx:36 | exactly the event's expenses added by somebody else, newest first |
| HostExpenseItems.ExpensesPartition | pages/host/views/HostExpenseAndItems.tsx:34-36 | the two lists together hold every event expense exactly as often as it occurs |
| HostExpenseItems.TotalEventExpenses | pages/host/views/HostExpenseAndItems.tsx:38-40 | the sum over the event's expenses that are verified or the host's own; its meaning is stated by TotalIsHostPlusVerifiedMembers |
| HostExpenseItems.TotalIsHostPlusVerifiedMembers | pages/host/views/HostExpenseAndItems.tsx:38-40 | the total is the host's own expenses, verified or not, plus the members' verified ones |
| HostExpenseItems.TotalsSumPerMember | pages/host/views/HostExpenseAndItems.tsx:42-54 | an entry exists exactly for each known user with a verified expense, totalling exactly those amounts; unknown users are skipped |
| HostExpenseItems.TotalsRows | pages/host/views/HostExpenseAndItems.tsx:53 | one row per listed member, and every entry appears among the rows |
| HostExpenseItems.AddExpenseToTotals | pages/host/views/HostExpenseAndItems.tsx:44-51 | one pass of the `forEach` body is one step of the totals fold: a known author's entry (zero total on first use, listed once) gains the amount; an unknown author changes nothing |
| HostExpenseItems.MemberTotalExpenses | pages/host/views/HostExpenseAndItems.tsx:42-54 | the loop builds exactly the fold of the verified member expenses, well formed, and returns its entries in first-use order |
| HostExpenseItems.TotalStock | pages/host/views/HostExpenseAndItems.tsx:161-164 | available stock plus the quantities of the event's verified orders of the item; its meaning is stated by VerifyKeepsTotalStock: verifying a pending request leaves it unchanged |
| HostExpenseItems.VerifyKeepsTotalStock | pages/host/views/HostExpenseAndItems.tsx:161-164 | verifying a pending request moves its quantity from available to consumed: the item's total stock is unchanged |
| HostExpenseItems.VerifyAgainShrinksTotalStock | pages/host/views/HostExpenseAndItems.tsx:161-164 | verifying an already verified request deducts again without adding consumption: the total stock shrinks by the quantity |
| HostExpenseItems.AddItemSubmit | pages/host/views/HostExpenseAndItems.tsx:62-70 | addItem is called exactly when name and stock text are non-empty, with the parsed stock |
| HostExpenseItems.AddStockSubmit | pages/host/views/HostExpenseAndItems.tsx:72-79 | addStock is called exactly when the amount text is non-empty and an item is selected |
| HostExpenseItems.EditStockSubmit | pages/host/views/HostExpenseAndItems.tsx:81-88 | editItemStock is called exactly when the amount text is non-empty and an item is selected |
| HostExpenseItems.AddExpenseSubmit | pages/host/views/HostExpenseAndItems.tsx:90-98 | addExpense is called exactly when name and amount are non-empty and someone is signed in |
| HostExpenseItems.EditMemberExpenseSubmit | pages/host/views/HostExpenseAndItems.tsx:100-109 | editExpense is called exactly when name and amount are non-empty and an expense is selected; the selection is then cleared, otherwise kept |
| HostExpenseItems.NegativeStockIsForwarded | pages/host/views/HostExpenseAndItems.tsx:74-76 | any non-empty amount text passes the guard, so an amount more negative than the stock is forwarded and drives the stock below zero |
| HostExpenseItems.ActionsFor | pages/host/views/HostExpenseAndItems.tsx:269-270 | Verify is offered exactly for unverified expenses; Edit always |
| HostExpenseItems.VerifiedExpenseOffersEditOnly | pages/host/views/HostExpenseAndItems.tsx:140-141 | once verified, an expense offers Edit and no Verify |
| HostMemberData.Members | pages/host/views/HostMemberData.tsx:17 | exactly the approved members, each as often as in the list |
| HostMemberData.GetMemberStats | pages/host/views/HostMemberData.tsx:20-27 | the pending count is at most the number of the member's orders for the event |
| HostMemberData.PendingPlusVerified | pages/host/views/HostMemberData.tsx:21-25 | pending plus verified is the number of the member's orders for the event |
| HostMemberData.SalesAgreeWithMemberDashboard | pages/host/views/HostMemberData.tsx:22-24 | the host sees the same sales figure as the member's own dashboard |
| HostMemberData.HandleAddConsumption | pages/host/views/HostMemberData.tsx:29-46 | an invalid form is refused and changes nothing; a valid one behaves as addConsumptionByHost, and the form closes exactly on success |
| MemberMainDashboard.MyVerifiedOrders | pages/member/views/MemberMainDashboard.tsx:17 | exactly the member's verified orders for the event, each as often as in the list |
| MemberMainDashboard.TotalSales | pages/member/views/MemberMainDashboard.tsx:19 | the rupees of the member's verified orders; its meaning is stated by BucketsAddUpToTotalSales (the three payment buckets add up to it) and HostMemberData.SalesAgreeWithMemberDashboard (the host's sales figure for the member equals it) |
| MemberMainDashboard.PaymentStatusTotals | pages/member/views/MemberMainDashboard.tsx:21-27 | each of the three buckets holds exactly the amount of the orders with that status |
| MemberMainDashboard.BucketsAddUpToTotalSales | pages/member/views/MemberMainDashboard.tsx:19-27 | Baki plus Cash plus Online is the total sales |
| MemberMyExpenses.MyExpenses | pages/member/views/MemberMyExpenses.tsx:21-22 | exactly the member's expenses for the event, each as often as in the list, newest first |
| MemberMyExpenses.AddMyExpense | pages/member/views/MemberMyExpenses.tsx:30-39 | addExpense is called exactly when name and amount are non-empty and someone is signed in; the inputs are then cleared, otherwise kept |
| MemberMyExpenses.EditMyExpense | pages/member/views/MemberMyExpenses.tsx:41-50 | editExpense is called exactly when name and amount are non-empty and an expense is being edited; the modal then closes and the selection is cleared, otherwise both stay |
| MemberMyExpenses.SavedEditKeepsMenu | pages/member/views/MemberMyExpenses.tsx:45-46 | a saved edit gives the expense the new name and amount and leaves its verification, so a pending expense keeps its menu |
| MemberMyExpenses.MenuOffered | pages/member/views/MemberMyExpenses.tsx:95 | the edit and delete menu exists exactly for unverified expenses |
| MemberMyExpenses.ToggleMenu | pages/member/views/MemberMyExpenses.tsx:97 | toggling the open menu closes it; toggling another opens that one |
| MemberMyExpenses.WindowClick | pages/member/views/MemberMyExpenses.tsx:24-28 | any window click closes the menu |
| MemberMyExpenses.ToggleTwiceRestores | pages/member/views/MemberMyExpenses.tsx:97 | from closed or open on the same expense, two toggles restore the state |
| MemberMyExpenses.DeleteMyExpense | pages/member/views/MemberMyExpenses.tsx:52-56 | a confirmed delete removes the expense; a cancelled one changes nothing |
| MemberMyExpenses.VerifiedExpenseLosesMenu | pages/member/views/MemberMyExpenses.tsx:95 | after verification the expense has no menu, and verifying again changes nothing |
| MemberMyData.ItemLabel | pages/member/views/MemberMyData.tsx:23 | the item's name when found and non-empty, "N/A" otherwise; never empty |
| MemberMyData.MyData | pages/member/views/MemberMyData.tsx:15-29 | one row per verified order of the member for the event, in list order, with its six fields |
| MemberMyData.RowsComeFromVerifiedOrders | pages/member/views/MemberMyData.tsx:17 | every row carries the customer and amount of a verified order of the member for the event |
| MemberMyData.DataValues | pages/member/views/MemberMyData.tsx:34 | a row has one value per header column |
| MemberMyData.ExportCsv | pages/member/views/MemberMyData.tsx:31-35 | no text exactly when there are no rows |
| MemberMyData.ExportLines | pages/member/views/MemberMyData.tsx:33-34 | one line more than there are rows: the column names joined by commas, then each row's values joined by commas, unquoted |
| MemberMyData.ExportCsvLines | pages/member/views/MemberMyData.tsx:31-35 | the export is its lines separated by line feeds; the header reads back as the column names, and a row whose values need no quoting reads back as its values and equals its escaped line |
| MemberMyData.CommaInCustomerNameShiftsColumns | pages/member/views/MemberMyData.tsx:33-35 | in the export itself, a row whose customer name holds one comma reads back as seven fields while the header reads back as six columns |
| MemberMyData.CommaSplitsRowLine | pages/member/views/MemberMyData.tsx:34 | a row's unquoted line with one comma in the customer name and none elsewhere reads back as seven fields |
| MemberMyData.ExportCsvEscaped | pages/host/views/HostPreviousData.tsx:43-56 | the corrected export: no text exactly when there are no rows |
| MemberMyData.EscapedHeaderUnchanged | pages/member/views/MemberMyData.tsx:33 | escaping leaves the header line as written |
| MemberMyData.EscapedRowsReadBack | pages/member/views/MemberMyData.tsx:34 | with escaping every row's line reads back as exactly its six values |
| HostPreviousData.MemberLabel | pages/host/views/HostPreviousData.tsx:29 | the member's name when found and non-empty, "N/A" otherwise |
| HostPreviousData.ItemName | pages/host/views/HostPreviousData.tsx:34 | the item's name when found and non-empty, "N/A" otherwise |
| HostPreviousData.YearlySalesData | pages/host/views/HostPreviousData.tsx:19-41 | one row per verified order of the event, in list order, with its member, time, customer, item, quantity and amount |
| HostPreviousData.ExportedAmountIsVerifiedSales | pages/host/views/HostPreviousData.tsx:19-41 | the rows' rupees add up to exactly the event's verified sales |
| HostPreviousData.SalesValues | pages/host/views/HostPreviousData.tsx:55 | a row has one value per header column |
| HostPreviousData.ExportSales | pages/host/views/HostPreviousData.tsx:43-56 | no text exactly when there are no rows |
| HostPreviousData.ExportedLinesReadBack | pages/host/views/HostPreviousData.tsx:54-55 | the header line is the plain header, and every row's line reads back as exactly its values |
| MemberMyOrderNotes.MyNotes | pages/member/views/MemberMyOrderNotes.tsx:27-28 | exactly the member's notes for the event, each as often as in the list, newest first |
| MemberMyOrderNotes.AddNoteSubmit | pages/member/views/MemberMyOrderNotes.tsx:30-36 | addNote is called exactly when the trimmed text is non-empty or a file is attached and someone is signed in; the draft is then reset, otherwise kept |
| MemberMyOrderNotes.BlankNoteIsRefused | pages/member/views/MemberMyOrderNotes.tsx:31 | a draft of spaces only and no files is not submitted |
| MemberMyOrderNotes.AppendUploads | pages/member/views/MemberMyOrderNotes.tsx:40 | the new files come after the existing ones, none dropped |
| MemberMyOrderNotes.RemovePreview | pages/member/views/MemberMyOrderNotes.tsx:83 | removing index i drops exactly that element and keeps the rest in order; an index out of range changes nothing |
| MemberMyOrderNotes.RemoveAfterAppend | pages/member/views/MemberMyOrderNotes.tsx:152 | removing a file just uploaded restores the list |
| MemberMyOrderNotes.OpenEditModal | pages/member/views/MemberMyOrderNotes.tsx:52-56 | opening an edit shows the note with no new files |
| MemberMyOrderNotes.SaveEdit | pages/member/views/MemberMyOrderNotes.tsx:58-64 | editNote is called exactly when the content is non-blank, images remain or files were added; the modal then closes, otherwise nothing changes |
| MemberMyOrderNotes.SaveWithoutNewFilesDropsImages | pages/member/views/MemberMyOrderNotes.tsx:60 | saving a note without new files passes an empty image list, and the store then gives the note no images |
| MemberMyOrderNotes.SaveEditKeepingImages | pages/member/views/MemberMyOrderNotes.tsx:58-64 | the corrected save: same guard and modal behaviour, with the kept images followed by the new files as the image list |
| MemberMyOrderNotes.KeptImagesSurviveEdit | pages/member/views/MemberMyOrderNotes.tsx:58-64 | with the corrected save the edited note's images are its kept images followed by the new files; without new files they stay as they were |

## Left out

- `simpleHash` (context/AppContext.tsx:8-17) is the store's `hash` parameter: its int32 arithmetic is not modelled.
- Stale snapshots: the store checks and updates one sequential state. The source checks a snapshot and updates through the setter's `prev`.
- `async`/`await` around `addConsumptionByHost` is a plain sequential call.
- `createEvent`, `logout`, `clearError`, `changePassword`, `uploadFile`, `deleteFile` and the seed data are not modelled: they hold no checks beyond an append, a reset or a map. Error texts and notifications become outcomes.
- Number parsing: each parsed form value is a parameter. MemberRequests and HostMemberData get it as `Option<real>`, with `None` for a value that does not parse. The HostExpenseAndItems and MemberMyExpenses handlers test only the text, as the source does, and forward the parsed value as given; the NaN such a value may carry is not modelled.
- JavaScript numbers are unbounded reals: IEEE rounding and `toFixed` are not modelled.
- Dates: timestamps are integers. The day filter is the UTC day number. `toLocaleDateString` and `toLocaleString` are the `dateText` / `dateTimeText` parameters, and number-to-text is the `numText` parameter.
- The `data:text/csv` prefix, `encodeURI` and the download link are not modelled: the exports stop at the CSV text.
- `Object.keys(data[0])` is the fixed header `DataHeader` / `SalesHeader`: the key order of the row literal.
- `toLowerCase` folds ASCII letters only.
- Files and blobs: note images are plain strings. The File-versus-URL mismatch in the `addNote` and `editNote` calls is not modelled.
- `window.confirm` is a boolean parameter. Clicks and listeners outside the expense menu rule are not modelled.
- Presentation, navigation, HostProfile and the Supabase wiring are not modelled.
- MemberConsumptionSummary, MemberTotalExpenses: the rows come in the order keys were first used. `Object.values` lists keys that look like array indices (such as "7") first, in numeric order; the model assumes ids never have that form, as generated ids do not.
- SortNewestFirst: keeps equal timestamps in list order, like the source's stable sort, but no lemma states this.
- Field names: the store writes camelCase fields (`eventId`, `availableStockKg`, `memberId`, `quantityKg`, …) while `types.ts` and the views read snake_case ones (`event_id`, `available_stock_kg`, `member_id`, `quantity_kg`, …). As written, those views read fields the store never sets. The model takes the two spellings as one record, so every view reads what the store wrote.
- The member records of `types.ts` carry no password hash; the model's `User` adds the one AppContext uses.

## Findings

| source | as written | input that shows it | evidently intended | confidence | as-written member | corrected member |
|---|---|---|---|---|---|---|
| pages/member/views/MemberMyData.tsx:33-34 | the export joins each row's values with ',' and quotes nothing | a verified order whose customer name is "Shah, R." | fields escaped as the host's export does (HostPreviousData.tsx:46-55), so every line reads back as six fields | high; not executed | MemberMyData.CommaInCustomerNameShiftsColumns | MemberMyData.EscapedRowsReadBack |
| pages/member/views/MemberMyOrderNotes.tsx:60 | the save passes the new files as the image list and the kept images as a fourth argument, which `editNote` (context/AppContext.tsx:330-336) does not take | a note with one image, edited without attaching a file, ends with no images | the kept images followed by the new files become the note's image list | high; not executed | MemberMyOrderNotes.SaveWithoutNewFilesDropsImages | MemberMyOrderNotes.KeptImagesSurviveEdit |
