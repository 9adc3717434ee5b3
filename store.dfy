/** The application store: the lists of users, items, orders, expenses and
    notes every screen reads, and the operations that change them. Each
    operation checks what it checks against the current lists and then
    replaces the affected list; the per-record updates are the functions
    below, the state changes are the methods of `AppStore`. */
module Store {
  import opened Lists
  import opened Records
  import opened Text

  /** Why an order operation was refused; the store shows a notification and changes nothing. */
  datatype Failure = ItemNotFound | OrderNotFound | InsufficientStock

  datatype Outcome = Done | Failed(reason: Failure)

  datatype LoginOutcome = LoggedIn | AwaitingApproval | InvalidCredentials

  /** The password substituted when a join request leaves it empty. */
  const DefaultPassword: string := "121212"

  predicate NonNegativeStock(items: seq<Item>)
  {
    forall k :: 0 <= k < |items| ==> items[k].availableStockKg >= 0.0
  }

  /** `k` is the index of the first item with the id, the one `find` returns. */
  predicate FirstWithId(items: seq<Item>, itemId: Id, k: int)
  {
    0 <= k < |items| && items[k].id == itemId && forall j :: 0 <= j < k ==> items[j].id != itemId
  }

  /** The stock check of `addOrder`, `addConsumptionByHost` and `editOrder`: the first item with the id
      must exist and hold at least the requested quantity. */
  function CheckStock(items: seq<Item>, itemId: Id, quantityKg: real): (r: Outcome)
    ensures r == Failed(ItemNotFound) <==> forall k :: 0 <= k < |items| ==> items[k].id != itemId
    ensures r.Done? || r == Failed(ItemNotFound) || r == Failed(InsufficientStock)
  {
    match FindItem(items, itemId)
    case None => Failed(ItemNotFound)
    case Some(item) => if item.availableStockKg < quantityKg then Failed(InsufficientStock) else Done
  }

  /** The check passes exactly when the first item with the id holds at least the quantity. */
  lemma CheckStockPasses(items: seq<Item>, itemId: Id, quantityKg: real)
    ensures CheckStock(items, itemId, quantityKg).Done?
            <==> exists k :: FirstWithId(items, itemId, k) && items[k].availableStockKg >= quantityKg
  {
    if FindItem(items, itemId).Some? {
      FindFirst(items, ItemWithId(itemId));
      var k :| 0 <= k < |items| && items[k] == FindItem(items, itemId).value
               && forall j :: 0 <= j < k ==> !ItemWithId(itemId)(items[j]);
      assert FirstWithId(items, itemId, k);
      forall k' | FirstWithId(items, itemId, k') ensures k' == k {
        assert !(k' < k) && !(k < k');
      }
    }
  }

  /** With distinct item ids the check is simply: the item exists and holds enough. */
  lemma CheckStockWithDistinctIds(items: seq<Item>, k: nat, quantityKg: real)
    requires DistinctItemIds(items) && k < |items|
    ensures CheckStock(items, items[k].id, quantityKg).Done? <==> items[k].availableStockKg >= quantityKg
  {
    CheckStockPasses(items, items[k].id, quantityKg);
    assert FirstWithId(items, items[k].id, k);
  }

  /** `addStock`: every item with the id gains `delta` kg; nothing else changes. */
  function AdjustStock(items: seq<Item>, itemId: Id, delta: real): (r: seq<Item>)
    ensures |r| == |items|
    ensures forall k :: 0 <= k < |items| ==> r[k].id == items[k].id && r[k].eventId == items[k].eventId && r[k].name == items[k].name
    ensures forall k :: 0 <= k < |items| && items[k].id == itemId ==> r[k].availableStockKg == items[k].availableStockKg + delta
    ensures forall k :: 0 <= k < |items| && items[k].id != itemId ==> r[k] == items[k]
  {
    seq(|items|, k requires 0 <= k < |items| =>
      if items[k].id == itemId then items[k].(availableStockKg := items[k].availableStockKg + delta) else items[k])
  }

  /** The decrement of `verifyOrder` and `addConsumptionByHost`: every item with the id loses
      `quantityKg` kg; nothing else changes. */
  function DeductStock(items: seq<Item>, itemId: Id, quantityKg: real): (r: seq<Item>)
    ensures |r| == |items|
    ensures forall k :: 0 <= k < |items| ==> r[k].id == items[k].id && r[k].eventId == items[k].eventId && r[k].name == items[k].name
    ensures forall k :: 0 <= k < |items| && items[k].id == itemId ==> r[k].availableStockKg == items[k].availableStockKg - quantityKg
    ensures forall k :: 0 <= k < |items| && items[k].id != itemId ==> r[k] == items[k]
  {
    seq(|items|, k requires 0 <= k < |items| =>
      if items[k].id == itemId then items[k].(availableStockKg := items[k].availableStockKg - quantityKg) else items[k])
  }

  /** `editItemStock`: every item with the id gets the absolute value `newStock`. */
  function SetStock(items: seq<Item>, itemId: Id, newStock: real): (r: seq<Item>)
    ensures |r| == |items|
    ensures forall k :: 0 <= k < |items| ==> r[k].id == items[k].id && r[k].eventId == items[k].eventId && r[k].name == items[k].name
    ensures forall k :: 0 <= k < |items| && items[k].id == itemId ==> r[k].availableStockKg == newStock
    ensures forall k :: 0 <= k < |items| && items[k].id != itemId ==> r[k] == items[k]
  {
    seq(|items|, k requires 0 <= k < |items| =>
      if items[k].id == itemId then items[k].(availableStockKg := newStock) else items[k])
  }

  /** The decrement that follows a successful stock check cannot make any stock negative, provided item
      ids are distinct: the check and the decrement then concern the same single item. */
  lemma DeductionKeepsStockNonNegative(items: seq<Item>, itemId: Id, quantityKg: real)
    requires DistinctItemIds(items) && NonNegativeStock(items)
    requires CheckStock(items, itemId, quantityKg).Done?
    ensures NonNegativeStock(DeductStock(items, itemId, quantityKg))
    ensures DistinctItemIds(DeductStock(items, itemId, quantityKg))
  {
    CheckStockPasses(items, itemId, quantityKg);
    var k :| FirstWithId(items, itemId, k) && items[k].availableStockKg >= quantityKg;
    var r := DeductStock(items, itemId, quantityKg);
    forall j | 0 <= j < |items| ensures r[j].availableStockKg >= 0.0 {
      if items[j].id == itemId {
        assert j == k;
      }
    }
  }

  /** The new order record of `addOrder` (unverified) and `addConsumptionByHost` (verified): payment status
      Baki, and no `edited` field. */
  function NewOrder(id: Id, memberId: Id, eventId: Id, itemId: Id, customerName: string, quantityKg: real,
                    amountInr: real, verified: bool, now: Timestamp): Order
  {
    Order(id, memberId, eventId, itemId, customerName, quantityKg, amountInr, Baki, verified, now, None)
  }

  /** The order lookup and stock check of `verifyOrder`. It does not look at the order's `verified` flag. */
  function VerifyCheck(orders: seq<Order>, items: seq<Item>, orderId: Id): (r: Outcome)
    ensures r == Failed(OrderNotFound) <==> forall k :: 0 <= k < |orders| ==> orders[k].id != orderId
    ensures FindOrder(orders, orderId).None? ==> r == Failed(OrderNotFound)
    ensures FindOrder(orders, orderId).Some? ==> r == CheckStock(items, FindOrder(orders, orderId).value.itemId, FindOrder(orders, orderId).value.quantityKg)
  {
    match FindOrder(orders, orderId)
    case None => Failed(OrderNotFound)
    case Some(order) => CheckStock(items, order.itemId, order.quantityKg)
  }

  /** The stock after `verifyOrder`: the order's quantity taken from its item when the check passes. */
  function StockAfterVerify(orders: seq<Order>, items: seq<Item>, orderId: Id): (r: seq<Item>)
    ensures VerifyCheck(orders, items, orderId).Failed? ==> r == items
  {
    match FindOrder(orders, orderId)
    case None => items
    case Some(order) =>
      if CheckStock(items, order.itemId, order.quantityKg).Done? then DeductStock(items, order.itemId, order.quantityKg)
      else items
  }

  /** `verifyOrder`'s order update: every order with the id becomes verified and not edited. */
  function MarkOrderVerified(orders: seq<Order>, orderId: Id): (r: seq<Order>)
    ensures |r| == |orders|
    ensures forall k :: 0 <= k < |orders| && orders[k].id == orderId ==> r[k] == orders[k].(verified := true, edited := Some(false))
    ensures forall k :: 0 <= k < |orders| && orders[k].id != orderId ==> r[k] == orders[k]
  {
    seq(|orders|, k requires 0 <= k < |orders| =>
      if orders[k].id == orderId then orders[k].(verified := true, edited := Some(false)) else orders[k])
  }

  /** `editOrder`'s update: customer, item, quantity and amount are overwritten, the order becomes unverified
      and edited and gets a new time; member, event and payment status stay. */
  function ApplyOrderEdit(orders: seq<Order>, orderId: Id, customerName: string, itemId: Id, quantityKg: real,
                          amountInr: real, now: Timestamp): (r: seq<Order>)
    ensures |r| == |orders|
    ensures forall k :: 0 <= k < |orders| ==>
      r[k].id == orders[k].id && r[k].memberId == orders[k].memberId && r[k].eventId == orders[k].eventId
      && r[k].paymentStatus == orders[k].paymentStatus
    ensures forall k :: 0 <= k < |orders| && orders[k].id == orderId ==>
      r[k].customerName == customerName && r[k].itemId == itemId && r[k].quantityKg == quantityKg
      && r[k].amountInr == amountInr && !r[k].verified && r[k].edited == Some(true) && r[k].dateTime == now
    ensures forall k :: 0 <= k < |orders| && orders[k].id != orderId ==> r[k] == orders[k]
  {
    seq(|orders|, k requires 0 <= k < |orders| =>
      if orders[k].id == orderId then
        orders[k].(customerName := customerName, itemId := itemId, quantityKg := quantityKg, amountInr := amountInr,
                   verified := false, edited := Some(true), dateTime := now)
      else orders[k])
  }

  /** `updateOrderPaymentStatus`'s update; it does not look at `verified`. */
  function SetPaymentStatus(orders: seq<Order>, orderId: Id, status: PaymentStatus): (r: seq<Order>)
    ensures |r| == |orders|
    ensures forall k :: 0 <= k < |orders| && orders[k].id == orderId ==> r[k] == orders[k].(paymentStatus := status)
    ensures forall k :: 0 <= k < |orders| && orders[k].id != orderId ==> r[k] == orders[k]
  {
    seq(|orders|, k requires 0 <= k < |orders| =>
      if orders[k].id == orderId then orders[k].(paymentStatus := status) else orders[k])
  }

  /** `deleteOrder` and `rejectOrder`: `orders.filter(o => o.id !== orderId)`. */
  function WithoutOrder(orders: seq<Order>, orderId: Id): (r: seq<Order>)
    ensures forall o :: o in r <==> o in orders && o.id != orderId
    ensures forall o: Order :: o.id != orderId ==> multiset(r)[o] == multiset(orders)[o]
  {
    var p := (o: Order) => o.id != orderId;
    FilterCount(orders, p);
    Filter(orders, p)
  }

  /** The remaining orders keep their order: removal works piece by piece, keeping an order with another id
      and dropping one with the id. */
  lemma {:induction false} WithoutOrderKeepsOrder(s: seq<Order>, t: seq<Order>, orderId: Id)
    ensures WithoutOrder(s + t, orderId) == WithoutOrder(s, orderId) + WithoutOrder(t, orderId)
    ensures forall o: Order :: WithoutOrder([o], orderId) == if o.id != orderId then [o] else []
  {
    FilterAppend(s, t, (o: Order) => o.id != orderId);
    forall o: Order ensures WithoutOrder([o], orderId) == if o.id != orderId then [o] else [] {
      assert [o][..0] == [];
    }
  }

  /** Removing an id that no order has leaves the list as it was. */
  lemma WithoutAbsentOrder(orders: seq<Order>, orderId: Id)
    requires forall k :: 0 <= k < |orders| ==> orders[k].id != orderId
    ensures WithoutOrder(orders, orderId) == orders
  {
    FilterAll(orders, (o: Order) => o.id != orderId);
  }

  /** `addExpense`: an expense is verified on creation exactly when the signed-in user is a host. */
  function AutoVerified(currentUser: Option<User>): bool
  {
    currentUser.Some? && currentUser.value.role == Host
  }

  /** `editExpense`'s update: name and amount change, the `verified` flag and the rest stay. */
  function ApplyExpenseEdit(expenses: seq<Expense>, expenseId: Id, name: string, amountInr: real): (r: seq<Expense>)
    ensures |r| == |expenses|
    ensures forall k :: 0 <= k < |expenses| ==>
      r[k].id == expenses[k].id && r[k].verified == expenses[k].verified && r[k].addedById == expenses[k].addedById
      && r[k].eventId == expenses[k].eventId && r[k].dateTime == expenses[k].dateTime
    ensures forall k :: 0 <= k < |expenses| && expenses[k].id == expenseId ==> r[k].name == name && r[k].amountInr == amountInr
    ensures forall k :: 0 <= k < |expenses| && expenses[k].id != expenseId ==> r[k] == expenses[k]
  {
    seq(|expenses|, k requires 0 <= k < |expenses| =>
      if expenses[k].id == expenseId then expenses[k].(name := name, amountInr := amountInr) else expenses[k])
  }

  /** `verifyExpense`'s update. */
  function MarkExpenseVerified(expenses: seq<Expense>, expenseId: Id): (r: seq<Expense>)
    ensures |r| == |expenses|
    ensures forall k :: 0 <= k < |expenses| && expenses[k].id == expenseId ==> r[k] == expenses[k].(verified := true)
    ensures forall k :: 0 <= k < |expenses| && expenses[k].id != expenseId ==> r[k] == expenses[k]
  {
    seq(|expenses|, k requires 0 <= k < |expenses| =>
      if expenses[k].id == expenseId then expenses[k].(verified := true) else expenses[k])
  }

  /** Verifying an expense a second time changes nothing. */
  lemma VerifyExpenseIdempotent(expenses: seq<Expense>, expenseId: Id)
    ensures MarkExpenseVerified(MarkExpenseVerified(expenses, expenseId), expenseId) == MarkExpenseVerified(expenses, expenseId)
  {
    var once := MarkExpenseVerified(expenses, expenseId);
    var twice := MarkExpenseVerified(once, expenseId);
    assert |twice| == |once|;
    forall k | 0 <= k < |once| ensures twice[k] == once[k] {
    }
  }

  /** `deleteExpense`. */
  function WithoutExpense(expenses: seq<Expense>, expenseId: Id): (r: seq<Expense>)
    ensures forall e :: e in r <==> e in expenses && e.id != expenseId
    ensures forall e: Expense :: e.id != expenseId ==> multiset(r)[e] == multiset(expenses)[e]
  {
    var p := (e: Expense) => e.id != expenseId;
    FilterCount(expenses, p);
    Filter(expenses, p)
  }

  /** The remaining expenses keep their order. */
  lemma {:induction false} WithoutExpenseKeepsOrder(s: seq<Expense>, t: seq<Expense>, expenseId: Id)
    ensures WithoutExpense(s + t, expenseId) == WithoutExpense(s, expenseId) + WithoutExpense(t, expenseId)
    ensures forall e: Expense :: WithoutExpense([e], expenseId) == if e.id != expenseId then [e] else []
  {
    FilterAppend(s, t, (e: Expense) => e.id != expenseId);
    forall e: Expense ensures WithoutExpense([e], expenseId) == if e.id != expenseId then [e] else [] {
      assert [e][..0] == [];
    }
  }

  /** `editNote`'s update: content, images and time are replaced. */
  function ApplyNoteEdit(notes: seq<Note>, noteId: Id, content: string, imageUrls: seq<string>, now: Timestamp): (r: seq<Note>)
    ensures |r| == |notes|
    ensures forall k :: 0 <= k < |notes| ==> r[k].id == notes[k].id && r[k].memberId == notes[k].memberId && r[k].eventId == notes[k].eventId
    ensures forall k :: 0 <= k < |notes| && notes[k].id == noteId ==> r[k].content == content && r[k].imageUrls == imageUrls && r[k].dateTime == now
    ensures forall k :: 0 <= k < |notes| && notes[k].id != noteId ==> r[k] == notes[k]
  {
    seq(|notes|, k requires 0 <= k < |notes| =>
      if notes[k].id == noteId then notes[k].(content := content, imageUrls := imageUrls, dateTime := now) else notes[k])
  }

  /** `deleteNote`. */
  function WithoutNote(notes: seq<Note>, noteId: Id): (r: seq<Note>)
    ensures forall n :: n in r <==> n in notes && n.id != noteId
    ensures forall n: Note :: n.id != noteId ==> multiset(r)[n] == multiset(notes)[n]
  {
    var p := (n: Note) => n.id != noteId;
    FilterCount(notes, p);
    Filter(notes, p)
  }

  /** The remaining notes keep their order. */
  lemma {:induction false} WithoutNoteKeepsOrder(s: seq<Note>, t: seq<Note>, noteId: Id)
    ensures WithoutNote(s + t, noteId) == WithoutNote(s, noteId) + WithoutNote(t, noteId)
    ensures forall n: Note :: WithoutNote([n], noteId) == if n.id != noteId then [n] else []
  {
    FilterAppend(s, t, (n: Note) => n.id != noteId);
    forall n: Note ensures WithoutNote([n], noteId) == if n.id != noteId then [n] else [] {
      assert [n][..0] == [];
    }
  }

  /** `users.some(u => u.email.toLowerCase() === email.toLowerCase())`. */
  function EmailTaken(users: seq<User>, email: string): (r: bool)
    ensures r <==> exists k :: 0 <= k < |users| && SameEmail(users[k].email, email)
  {
    Find(users, (u: User) => SameEmail(u.email, email)).Some?
  }

  /** The same test restricted to users other than `userId`, as `changeEmail` does it. */
  function EmailTakenByOther(users: seq<User>, email: string, userId: Id): (r: bool)
    ensures r <==> exists k :: 0 <= k < |users| && SameEmail(users[k].email, email) && users[k].id != userId
  {
    Find(users, (u: User) => SameEmail(u.email, email) && u.id != userId).Some?
  }

  /** `login`'s lookup: the first user with the email (in any letter case) and the password hash. */
  function FindAccount(users: seq<User>, email: string, passwordHash: string): (r: Option<User>)
    ensures r.Some? ==> r.value in users && SameEmail(r.value.email, email) && r.value.passwordHash == passwordHash
    ensures r.None? <==> forall k :: 0 <= k < |users| ==> !(SameEmail(users[k].email, email) && users[k].passwordHash == passwordHash)
  {
    Find(users, (u: User) => SameEmail(u.email, email) && u.passwordHash == passwordHash)
  }

  /** `approveMember`'s update. */
  function ApproveUser(users: seq<User>, userId: Id): (r: seq<User>)
    ensures |r| == |users|
    ensures forall k :: 0 <= k < |users| && users[k].id == userId ==> r[k] == users[k].(status := Approved)
    ensures forall k :: 0 <= k < |users| && users[k].id != userId ==> r[k] == users[k]
  {
    seq(|users|, k requires 0 <= k < |users| =>
      if users[k].id == userId then users[k].(status := Approved) else users[k])
  }

  /** `changeEmail`'s update. */
  function ReplaceEmail(users: seq<User>, userId: Id, email: string): (r: seq<User>)
    ensures |r| == |users|
    ensures forall k :: 0 <= k < |users| && users[k].id == userId ==> r[k] == users[k].(email := email)
    ensures forall k :: 0 <= k < |users| && users[k].id != userId ==> r[k] == users[k]
  {
    seq(|users|, k requires 0 <= k < |users| =>
      if users[k].id == userId then users[k].(email := email) else users[k])
  }

  /** The provider state. `hash` stands for the application's password hash function. */
  class AppStore {
    var users: seq<User>
    var items: seq<Item>
    var orders: seq<Order>
    var expenses: seq<Expense>
    var notes: seq<Note>
    var currentUser: Option<User>
    const hash: string -> string

    constructor (hash: string -> string)
      ensures this.hash == hash && currentUser == None
      ensures users == [] && items == [] && orders == [] && expenses == [] && notes == []
    {
      this.hash := hash;
      users, items, orders, expenses, notes := [], [], [], [], [];
      currentUser := None;
    }

    /** Item ids are distinct and no stock is negative. */
    predicate StockInvariant()
      reads this
    {
      DistinctItemIds(items) && NonNegativeStock(items)
    }

    method Login(email: string, pass: string) returns (r: LoginOutcome)
      modifies this`currentUser
      ensures var account := FindAccount(users, email, hash(pass));
        && (account.None? ==> r == InvalidCredentials)
        && (account.Some? && account.value.status == Pending ==> r == AwaitingApproval)
        && (account.Some? && account.value.status == Approved ==> r == LoggedIn)
        && currentUser == if r == LoggedIn then account else old(currentUser)
      ensures currentUser != old(currentUser) ==> currentUser.Some? && currentUser.value.status == Approved
    {
      var account := FindAccount(users, email, hash(pass));
      if account.None? {
        r := InvalidCredentials;
      } else if account.value.status == Pending {
        r := AwaitingApproval;
      } else {
        currentUser := account;
        r := LoggedIn;
      }
    }

    method RequestToJoin(id: Id, name: string, email: string, pass: string) returns (ok: bool)
      modifies this`users
      ensures ok <==> !EmailTaken(old(users), email)
      ensures users == if ok then old(users) + [User(id, name, email, hash(if pass == "" then DefaultPassword else pass), Member, Pending)]
                       else old(users)
    {
      if EmailTaken(users, email) {
        return false;
      }
      var passwordHash := hash(if pass == "" then DefaultPassword else pass);
      users := users + [User(id, name, email, passwordHash, Member, Pending)];
      ok := true;
    }

    method ApproveMember(memberId: Id)
      modifies this`users
      ensures users == ApproveUser(old(users), memberId)
    {
      users := ApproveUser(users, memberId);
    }

    method ChangeEmail(userId: Id, newEmail: string, currentPass: string) returns (ok: bool)
      modifies this`users, this`currentUser
      ensures var user := FindUser(old(users), userId);
        ok <==> user.Some? && hash(currentPass) == user.value.passwordHash && !EmailTakenByOther(old(users), newEmail, userId)
      ensures users == if ok then ReplaceEmail(old(users), userId, newEmail) else old(users)
      ensures currentUser == if ok && old(currentUser).Some? && old(currentUser).value.id == userId
                             then Some(old(currentUser).value.(email := newEmail)) else old(currentUser)
    {
      var user := FindUser(users, userId);
      if user.None? || hash(currentPass) != user.value.passwordHash || EmailTakenByOther(users, newEmail, userId) {
        return false;
      }
      users := ReplaceEmail(users, userId, newEmail);
      if currentUser.Some? && currentUser.value.id == userId {
        currentUser := Some(currentUser.value.(email := newEmail));
      }
      ok := true;
    }

    /** `addItem` takes the initial stock as given, without a sign check. */
    method AddItem(id: Id, eventId: Id, name: string, initialStockKg: real)
      modifies this`items
      ensures items == old(items) + [Item(id, eventId, name, initialStockKg)]
      ensures old(StockInvariant()) && (forall k :: 0 <= k < |old(items)| ==> old(items)[k].id != id) && initialStockKg >= 0.0
              ==> StockInvariant()
    {
      items := items + [Item(id, eventId, name, initialStockKg)];
    }

    /** `addStock` adds without a sign check. */
    method AddStock(itemId: Id, amountKg: real)
      modifies this`items
      ensures items == AdjustStock(old(items), itemId, amountKg)
      ensures old(StockInvariant()) && amountKg >= 0.0 ==> StockInvariant()
    {
      items := AdjustStock(items, itemId, amountKg);
    }

    /** `editItemStock` overwrites without a sign check. */
    method EditItemStock(itemId: Id, newStockKg: real)
      modifies this`items
      ensures items == SetStock(old(items), itemId, newStockKg)
      ensures old(StockInvariant()) && newStockKg >= 0.0 ==> StockInvariant()
    {
      items := SetStock(items, itemId, newStockKg);
    }

    /** A member's request: checked against stock, stored unverified; stock is not touched. */
    method AddOrder(id: Id, now: Timestamp, memberId: Id, eventId: Id, itemId: Id, customerName: string,
                    quantityKg: real, amountInr: real) returns (r: Outcome)
      modifies this`orders
      ensures r == CheckStock(items, itemId, quantityKg)
      ensures orders == if r.Done? then old(orders) + [NewOrder(id, memberId, eventId, itemId, customerName, quantityKg, amountInr, false, now)]
                        else old(orders)
    {
      r := CheckStock(items, itemId, quantityKg);
      if r.Done? {
        orders := orders + [NewOrder(id, memberId, eventId, itemId, customerName, quantityKg, amountInr, false, now)];
      }
    }

    /** The host's direct entry: checked against stock, stored verified, and the stock decremented at once. */
    method AddConsumptionByHost(id: Id, now: Timestamp, memberId: Id, eventId: Id, itemId: Id, customerName: string,
                                quantityKg: real, amountInr: real) returns (r: Outcome)
      modifies this`orders, this`items
      ensures r == CheckStock(old(items), itemId, quantityKg)
      ensures orders == if r.Done? then old(orders) + [NewOrder(id, memberId, eventId, itemId, customerName, quantityKg, amountInr, true, now)]
                        else old(orders)
      ensures items == if r.Done? then DeductStock(old(items), itemId, quantityKg) else old(items)
      ensures old(StockInvariant()) ==> StockInvariant()
    {
      r := CheckStock(items, itemId, quantityKg);
      if r.Done? {
        orders := orders + [NewOrder(id, memberId, eventId, itemId, customerName, quantityKg, amountInr, true, now)];
        if StockInvariant() {
          DeductionKeepsStockNonNegative(items, itemId, quantityKg);
        }
        items := DeductStock(items, itemId, quantityKg);
      }
    }

    /** Checks the new item and quantity against stock, then overwrites the order. Neither ownership nor the
        `verified` flag is checked, and no stock is given back. */
    method EditOrder(orderId: Id, now: Timestamp, customerName: string, itemId: Id, quantityKg: real, amountInr: real)
      returns (r: Outcome)
      modifies this`orders
      ensures r == CheckStock(items, itemId, quantityKg)
      ensures orders == if r.Done? then ApplyOrderEdit(old(orders), orderId, customerName, itemId, quantityKg, amountInr, now)
                        else old(orders)
    {
      r := CheckStock(items, itemId, quantityKg);
      if r.Done? {
        orders := ApplyOrderEdit(orders, orderId, customerName, itemId, quantityKg, amountInr, now);
      }
    }

    method DeleteOrder(orderId: Id)
      modifies this`orders
      ensures orders == WithoutOrder(old(orders), orderId)
    {
      orders := WithoutOrder(orders, orderId);
    }

    /** The host's rejection removes the order exactly as a deletion does. */
    method RejectOrder(orderId: Id)
      modifies this`orders
      ensures orders == WithoutOrder(old(orders), orderId)
    {
      orders := WithoutOrder(orders, orderId);
    }

    /** Re-checks stock for the order's item and quantity, then marks the order verified and decrements the
        item's stock. An order that is already verified is verified, and decremented, again. */
    method VerifyOrder(orderId: Id) returns (r: Outcome)
      modifies this`orders, this`items
      ensures r == VerifyCheck(old(orders), old(items), orderId)
      ensures orders == if r.Done? then MarkOrderVerified(old(orders), orderId) else old(orders)
      ensures items == StockAfterVerify(old(orders), old(items), orderId)
      ensures old(StockInvariant()) ==> StockInvariant()
    {
      r := VerifyCheck(orders, items, orderId);
      if r.Done? {
        var order := FindOrder(orders, orderId).value;
        if StockInvariant() {
          DeductionKeepsStockNonNegative(items, order.itemId, order.quantityKg);
        }
        orders := MarkOrderVerified(orders, orderId);
        items := DeductStock(items, order.itemId, order.quantityKg);
      }
    }

    /** Sets the payment status whether or not the order is verified. */
    method UpdateOrderPaymentStatus(orderId: Id, status: PaymentStatus)
      modifies this`orders
      ensures orders == SetPaymentStatus(old(orders), orderId, status)
    {
      orders := SetPaymentStatus(orders, orderId, status);
    }

    method AddExpense(id: Id, now: Timestamp, addedById: Id, eventId: Id, name: string, amountInr: real)
      modifies this`expenses
      ensures expenses == old(expenses) + [Expense(id, addedById, eventId, name, amountInr, AutoVerified(currentUser), now)]
      ensures expenses[|expenses| - 1].verified <==> currentUser.Some? && currentUser.value.role == Host
    {
      expenses := expenses + [Expense(id, addedById, eventId, name, amountInr, AutoVerified(currentUser), now)];
    }

    method EditExpense(expenseId: Id, name: string, amountInr: real)
      modifies this`expenses
      ensures expenses == ApplyExpenseEdit(old(expenses), expenseId, name, amountInr)
    {
      expenses := ApplyExpenseEdit(expenses, expenseId, name, amountInr);
    }

    method DeleteExpense(expenseId: Id)
      modifies this`expenses
      ensures expenses == WithoutExpense(old(expenses), expenseId)
    {
      expenses := WithoutExpense(expenses, expenseId);
    }

    method VerifyExpense(expenseId: Id)
      modifies this`expenses
      ensures expenses == MarkExpenseVerified(old(expenses), expenseId)
    {
      expenses := MarkExpenseVerified(expenses, expenseId);
    }

    method AddNote(id: Id, now: Timestamp, memberId: Id, eventId: Id, content: string, imageUrls: seq<string>)
      modifies this`notes
      ensures notes == old(notes) + [Note(id, memberId, eventId, content, imageUrls, now)]
    {
      notes := notes + [Note(id, memberId, eventId, content, imageUrls, now)];
    }

    method EditNote(noteId: Id, now: Timestamp, content: string, imageUrls: seq<string>)
      modifies this`notes
      ensures notes == ApplyNoteEdit(old(notes), noteId, content, imageUrls, now)
    {
      notes := ApplyNoteEdit(notes, noteId, content, imageUrls, now);
    }

    method DeleteNote(noteId: Id)
      modifies this`notes
      ensures notes == WithoutNote(old(notes), noteId)
    {
      notes := WithoutNote(notes, noteId);
    }
  }
}
