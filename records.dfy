/** The domain records: roles, statuses and the User, Event, Item, Order,
    Expense and Note records. The store uses camelCase field names and the
    screens snake_case ones for the same records; both map to the one
    datatype per entity below. */
module Records {
  import opened Lists

  /** Record identifiers, generated as random UUIDs by the application. */
  type Id = string

  /** `date_time`: milliseconds since the Unix epoch, the value `new Date(...).getTime()` yields. */
  type Timestamp = int

  datatype Role = Host | Member

  datatype UserStatus = Pending | Approved

  /** Baki is the unpaid state; Cash and Online are the two ways of settling. */
  datatype PaymentStatus = Baki | Cash | Online

  datatype User = User(id: Id, name: string, email: string, passwordHash: string, role: Role, status: UserStatus)

  datatype Event = Event(id: Id, name: string, year: int, imageUrl: string)

  /** Every item belongs to exactly one event through `eventId`. */
  datatype Item = Item(id: Id, eventId: Id, name: string, availableStockKg: real)

  /** One consumption transaction: a member sells `quantityKg` of an item to a customer.
      `edited` is an optional field; `None` means it was never written. */
  datatype Order = Order(
    id: Id,
    memberId: Id,
    eventId: Id,
    itemId: Id,
    customerName: string,
    quantityKg: real,
    amountInr: real,
    paymentStatus: PaymentStatus,
    verified: bool,
    dateTime: Timestamp,
    edited: Option<bool>)

  datatype Expense = Expense(id: Id, addedById: Id, eventId: Id, name: string, amountInr: real, verified: bool, dateTime: Timestamp)

  /** `image_urls` is optional in the record; an absent list and an empty one are treated alike. */
  datatype Note = Note(id: Id, memberId: Id, eventId: Id, content: string, imageUrls: seq<string>, dateTime: Timestamp)

  function OrderTime(o: Order): Timestamp { o.dateTime }

  function ExpenseTime(e: Expense): Timestamp { e.dateTime }

  function NoteTime(n: Note): Timestamp { n.dateTime }

  function Quantity(o: Order): real { o.quantityKg }

  function OrderAmount(o: Order): real { o.amountInr }

  function ExpenseAmount(e: Expense): real { e.amountInr }

  /** The `find(x => x.id === id)` lookups of the store and the screens. */
  function ItemWithId(id: Id): Item -> bool { (i: Item) => i.id == id }

  function OrderWithId(id: Id): Order -> bool { (o: Order) => o.id == id }

  function UserWithId(id: Id): User -> bool { (u: User) => u.id == id }

  function FindItem(items: seq<Item>, id: Id): Option<Item> { Find(items, ItemWithId(id)) }

  function FindOrder(orders: seq<Order>, id: Id): Option<Order> { Find(orders, OrderWithId(id)) }

  function FindUser(users: seq<User>, id: Id): Option<User> { Find(users, UserWithId(id)) }

  /** The `edited` flag as the status labels read it: absent counts as not edited. */
  predicate WasEdited(o: Order)
  {
    o.edited == Some(true)
  }

  /** The status label both order screens show. */
  function StatusLabel(o: Order): (shown: string)
    ensures shown == "Verified" <==> o.verified
    ensures shown == "Pending (Edited)" <==> !o.verified && WasEdited(o)
    ensures shown == "Pending" <==> !o.verified && !WasEdited(o)
  {
    if o.verified then "Verified" else if o.edited == Some(true) then "Pending (Edited)" else "Pending"
  }

  /** The text a payment status is stored and shown as. */
  function PaymentStatusText(s: PaymentStatus): string
  {
    match s
    case Baki => "Baki"
    case Cash => "Cash"
    case Online => "Online"
  }

  /** No two records share an id. */
  predicate DistinctItemIds(items: seq<Item>)
  {
    forall i, j :: 0 <= i < j < |items| ==> items[i].id != items[j].id
  }

  predicate DistinctOrderIds(orders: seq<Order>)
  {
    forall i, j :: 0 <= i < j < |orders| ==> orders[i].id != orders[j].id
  }
}
