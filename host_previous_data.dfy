/** The host's sales export: one row per verified order of the event, written as
    comma-separated text with each field escaped. */
module HostPreviousData {
  import opened Lists
  import opened Records
  import opened Selections
  import opened Text

  /** One row of the export, its fields in export order. */
  datatype SalesRow = SalesRow(memberName: string, saleDateTime: string, customerName: string, item: string,
                               quantityKg: real, amountInr: real)

  /** The member's name, or 'N/A' when the member is not found or the name is empty. */
  function MemberLabel(users: seq<User>, memberId: Id): (shown: string)
    ensures FindUser(users, memberId).Some? && FindUser(users, memberId).value.name != "" ==> shown == FindUser(users, memberId).value.name
    ensures FindUser(users, memberId).None? || FindUser(users, memberId).value.name == "" ==> shown == "N/A"
  {
    match FindUser(users, memberId)
    case Some(member) => if member.name != "" then member.name else "N/A"
    case None => "N/A"
  }

  /** The item's name, or 'N/A' when the item is not found or the name is empty. */
  function ItemName(items: seq<Item>, itemId: Id): (shown: string)
    ensures FindItem(items, itemId).Some? && FindItem(items, itemId).value.name != "" ==> shown == FindItem(items, itemId).value.name
    ensures FindItem(items, itemId).None? || FindItem(items, itemId).value.name == "" ==> shown == "N/A"
  {
    match FindItem(items, itemId)
    case Some(item) => if item.name != "" then item.name else "N/A"
    case None => "N/A"
  }

  /** One row per verified order of the event, in list order. `dateTimeText` stands for the date and time
      formatting in Indian time. */
  function YearlySalesData(orders: seq<Order>, users: seq<User>, items: seq<Item>, eventId: Id,
                           dateTimeText: Timestamp -> string): (rows: seq<SalesRow>)
    ensures var sold := Filter(orders, VerifiedInEvent(eventId));
      && |rows| == |sold|
      && forall k :: 0 <= k < |rows| ==>
        && rows[k].memberName == MemberLabel(users, sold[k].memberId)
        && rows[k].saleDateTime == dateTimeText(sold[k].dateTime)
        && rows[k].customerName == sold[k].customerName
        && rows[k].item == ItemName(items, sold[k].itemId)
        && rows[k].quantityKg == sold[k].quantityKg
        && rows[k].amountInr == sold[k].amountInr
  {
    var sold := Filter(orders, VerifiedInEvent(eventId));
    seq(|sold|, k requires 0 <= k < |sold| =>
      SalesRow(MemberLabel(users, sold[k].memberId), dateTimeText(sold[k].dateTime), sold[k].customerName,
               ItemName(items, sold[k].itemId), sold[k].quantityKg, sold[k].amountInr))
  }

  /** Only verified orders of the event are exported, and all of them: the rows carry exactly their
      rupees. */
  lemma ExportedAmountIsVerifiedSales(orders: seq<Order>, users: seq<User>, items: seq<Item>, eventId: Id,
                                      dateTimeText: Timestamp -> string)
    ensures var rows := YearlySalesData(orders, users, items, eventId, dateTimeText);
      Sum(rows, (r: SalesRow) => r.amountInr) == Sum(Filter(orders, VerifiedInEvent(eventId)), OrderAmount)
  {
    var rows := YearlySalesData(orders, users, items, eventId, dateTimeText);
    var sold := Filter(orders, VerifiedInEvent(eventId));
    SumOfMatchingTerms(rows, sold, (r: SalesRow) => r.amountInr, OrderAmount);
  }

  lemma {:induction false} SumOfMatchingTerms<A, B>(s: seq<A>, t: seq<B>, f: A -> real, g: B -> real)
    requires |s| == |t|
    requires forall k :: 0 <= k < |s| ==> f(s[k]) == g(t[k])
    ensures Sum(s, f) == Sum(t, g)
  {
    if |s| > 0 {
      SumOfMatchingTerms(s[..|s| - 1], t[..|t| - 1], f, g);
    }
  }

  /** The column names, the keys of a row in order. */
  const SalesHeader: seq<string> := ["memberName", "saleDateTime", "customerName", "item", "quantityKg", "amountInr"]

  /** A row's values as text, in column order. `numText` stands for the conversion of a number to text. */
  function SalesValues(row: SalesRow, numText: real -> string): (values: seq<string>)
    ensures |values| == |SalesHeader|
  {
    [row.memberName, row.saleDateTime, row.customerName, row.item, numText(row.quantityKg), numText(row.amountInr)]
  }

  function AllSalesValues(rows: seq<SalesRow>, numText: real -> string): (values: seq<seq<string>>)
    ensures |values| == |rows|
    ensures forall k :: 0 <= k < |rows| ==> values[k] == SalesValues(rows[k], numText)
  {
    seq(|rows|, k requires 0 <= k < |rows| => SalesValues(rows[k], numText))
  }

  /** `exportToCSV`: nothing for no rows; otherwise the escaped header line, a line feed, and the escaped
      rows one per line. */
  function ExportSales(rows: seq<SalesRow>, numText: real -> string): (text: Option<string>)
    ensures text.None? <==> rows == []
  {
    CsvDocument(SalesHeader, AllSalesValues(rows, numText))
  }

  /** The header needs no quotes, and every exported line reads back as exactly the values of its row, even
      a date and time written with a comma. */
  lemma ExportedLinesReadBack(rows: seq<SalesRow>, numText: real -> string)
    ensures CsvLine(SalesHeader) == Join(SalesHeader, ',')
    ensures forall k :: 0 <= k < |rows| ==> ReadRow(CsvLine(SalesValues(rows[k], numText))) == SalesValues(rows[k], numText)
  {
    assert forall k :: 0 <= k < |SalesHeader| ==> !NeedsQuotes(SalesHeader[k]);
    PlainJoinIsCsvLine(SalesHeader);
    forall k | 0 <= k < |rows| ensures ReadRow(CsvLine(SalesValues(rows[k], numText))) == SalesValues(rows[k], numText) {
      CsvLineRoundTrip(SalesValues(rows[k], numText));
    }
  }
}
