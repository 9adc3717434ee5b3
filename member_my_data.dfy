/** The member's data page: one row per verified order of the member for the
    event, and the export of those rows as comma-separated text. */
module MemberMyData {
  import opened Lists
  import opened Records
  import opened Text
  import opened MemberMainDashboard

  /** One row of the table and of the export, its fields in export order. */
  datatype DataRow = DataRow(requestDate: string, customerName: string, item: string, quantityKg: real,
                             amountInr: real, paymentStatus: PaymentStatus)

  /** The item's name, or 'N/A' when the item is not found or its name is empty. */
  function ItemLabel(items: seq<Item>, itemId: Id): (shown: string)
    ensures FindItem(items, itemId).Some? && FindItem(items, itemId).value.name != "" ==> shown == FindItem(items, itemId).value.name
    ensures FindItem(items, itemId).None? || FindItem(items, itemId).value.name == "" ==> shown == "N/A"
    ensures shown != ""
  {
    match FindItem(items, itemId)
    case Some(item) => if item.name != "" then item.name else "N/A"
    case None => "N/A"
  }

  /** The rows: one per verified order of the member for the event, in list order. `dateText` stands for
      the date formatting of the browser's locale. */
  function MyData(orders: seq<Order>, items: seq<Item>, memberId: Id, eventId: Id, dateText: Timestamp -> string)
    : (rows: seq<DataRow>)
    ensures var mine := MyVerifiedOrders(orders, memberId, eventId);
      && |rows| == |mine|
      && forall k :: 0 <= k < |rows| ==>
        && rows[k].requestDate == dateText(mine[k].dateTime)
        && rows[k].customerName == mine[k].customerName
        && rows[k].item == ItemLabel(items, mine[k].itemId)
        && rows[k].quantityKg == mine[k].quantityKg
        && rows[k].amountInr == mine[k].amountInr
        && rows[k].paymentStatus == mine[k].paymentStatus
  {
    var mine := MyVerifiedOrders(orders, memberId, eventId);
    seq(|mine|, k requires 0 <= k < |mine| =>
      DataRow(dateText(mine[k].dateTime), mine[k].customerName, ItemLabel(items, mine[k].itemId),
              mine[k].quantityKg, mine[k].amountInr, mine[k].paymentStatus))
  }

  /** Every row stands for a verified order of the member for the event. */
  lemma RowsComeFromVerifiedOrders(orders: seq<Order>, items: seq<Item>, memberId: Id, eventId: Id,
                                   dateText: Timestamp -> string, k: nat)
    requires k < |MyData(orders, items, memberId, eventId, dateText)|
    ensures exists o :: o in orders && o.memberId == memberId && o.eventId == eventId && o.verified
                        && MyData(orders, items, memberId, eventId, dateText)[k].customerName == o.customerName
                        && MyData(orders, items, memberId, eventId, dateText)[k].amountInr == o.amountInr
  {
    var mine := MyVerifiedOrders(orders, memberId, eventId);
    assert mine[k] in mine;
  }

  /** The column names, the keys of a row in order. */
  const DataHeader: seq<string> := ["requestDate", "customerName", "item", "quantityKg", "amountInr", "paymentStatus"]

  /** A row's values as text, in column order. `numText` stands for the conversion of a number to text. */
  function DataValues(row: DataRow, numText: real -> string): (values: seq<string>)
    ensures |values| == |DataHeader|
  {
    [row.requestDate, row.customerName, row.item, numText(row.quantityKg), numText(row.amountInr),
     PaymentStatusText(row.paymentStatus)]
  }

  /** The export as written: nothing for no rows; otherwise the header's keys joined by commas, a line
      feed, and the rows' values joined by commas, one row per line. No field is quoted. */
  function ExportCsv(rows: seq<DataRow>, numText: real -> string): (text: Option<string>)
    ensures text.None? <==> rows == []
  {
    if |rows| == 0 then None
    else Some(Join(DataHeader, ',') + "\n"
              + Join(seq(|rows|, k requires 0 <= k < |rows| => Join(DataValues(rows[k], numText), ',')), '\n'))
  }

  /** The lines of the export as written: the header's keys joined by commas, then each row's values joined
      by commas. */
  function ExportLines(rows: seq<DataRow>, numText: real -> string): (lines: seq<string>)
    ensures |lines| == |rows| + 1
    ensures lines[0] == Join(DataHeader, ',')
    ensures forall k :: 0 <= k < |rows| ==> lines[k + 1] == Join(DataValues(rows[k], numText), ',')
  {
    [Join(DataHeader, ',')] + seq(|rows|, k requires 0 <= k < |rows| => Join(DataValues(rows[k], numText), ','))
  }

  /** The export is its lines separated by line feeds. Its header reads back as the column names, and a row
      line reads back as the row's values exactly when quoting would have changed none of them: then the
      unquoted export agrees with the escaped one line by line. */
  lemma ExportCsvLines(rows: seq<DataRow>, numText: real -> string)
    requires rows != []
    ensures ExportCsv(rows, numText) == Some(Join(ExportLines(rows, numText), '\n'))
    ensures ReadRow(ExportLines(rows, numText)[0]) == DataHeader
    ensures forall k :: 0 <= k < |rows| && (forall j :: 0 <= j < |DataHeader| ==> !NeedsQuotes(DataValues(rows[k], numText)[j])) ==>
      ExportLines(rows, numText)[k + 1] == CsvLine(DataValues(rows[k], numText))
      && ReadRow(ExportLines(rows, numText)[k + 1]) == DataValues(rows[k], numText)
  {
    var lines := ExportLines(rows, numText);
    var rowLines := seq(|rows|, k requires 0 <= k < |rows| => Join(DataValues(rows[k], numText), ','));
    assert lines[1..] == rowLines;
    EscapedHeaderUnchanged();
    CsvLineRoundTrip(DataHeader);
    forall k | 0 <= k < |rows| && (forall j :: 0 <= j < |DataHeader| ==> !NeedsQuotes(DataValues(rows[k], numText)[j]))
      ensures lines[k + 1] == CsvLine(DataValues(rows[k], numText))
      ensures ReadRow(lines[k + 1]) == DataValues(rows[k], numText)
    {
      PlainJoinIsCsvLine(DataValues(rows[k], numText));
      CsvLineRoundTrip(DataValues(rows[k], numText));
    }
  }

  /** Without quoting, a comma in a customer name splits that row's line in the export: the header reads
      back as six columns but the row's line as seven fields, and every value after the name moves one
      column to the right. */
  lemma CommaInCustomerNameShiftsColumns(rows: seq<DataRow>, numText: real -> string, k: nat)
    requires k < |rows|
    requires CountChar(rows[k].customerName, ',') == 1
    requires forall j :: 0 <= j < |DataValues(rows[k], numText)| ==> '"' !in DataValues(rows[k], numText)[j]
    requires CountChar(rows[k].requestDate, ',') == 0 && CountChar(rows[k].item, ',') == 0
    requires CountChar(numText(rows[k].quantityKg), ',') == 0 && CountChar(numText(rows[k].amountInr), ',') == 0
    ensures ExportCsv(rows, numText) == Some(Join(ExportLines(rows, numText), '\n'))
    ensures |ReadRow(ExportLines(rows, numText)[0])| == |DataHeader|
    ensures |ReadRow(ExportLines(rows, numText)[k + 1])| == |DataHeader| + 1
  {
    ExportCsvLines(rows, numText);
    CommaSplitsRowLine(rows[k], numText);
  }

  /** A row whose customer name holds one comma, and no other value a comma or a double quote, reads back
      from its unquoted line as seven fields. */
  lemma CommaSplitsRowLine(row: DataRow, numText: real -> string)
    requires CountChar(row.customerName, ',') == 1
    requires forall k :: 0 <= k < |DataValues(row, numText)| ==> '"' !in DataValues(row, numText)[k]
    requires CountChar(row.requestDate, ',') == 0 && CountChar(row.item, ',') == 0
    requires CountChar(numText(row.quantityKg), ',') == 0 && CountChar(numText(row.amountInr), ',') == 0
    ensures |ReadRow(Join(DataValues(row, numText), ','))| == |DataValues(row, numText)| + 1
  {
    var values := DataValues(row, numText);
    var line := Join(values, ',');
    JoinCountsSeparators(values, ',');
    var status := PaymentStatusText(row.paymentStatus);
    CountCharAbsent(status, ',');
    assert values[5..] == [status] && values[5..][1..] == [];
    assert CountInParts(values[5..], ',') == 0;
    assert values[4..][1..] == values[5..] && values[4..][0] == values[4];
    assert CountInParts(values[4..], ',') == 0;
    assert values[3..][1..] == values[4..] && values[3..][0] == values[3];
    assert CountInParts(values[3..], ',') == 0;
    assert values[2..][1..] == values[3..] && values[2..][0] == values[2];
    assert CountInParts(values[2..], ',') == 0;
    assert values[1..][1..] == values[2..] && values[1..][0] == values[1];
    assert CountInParts(values[1..], ',') == 1;
    assert CountInParts(values, ',') == 1;
    NoQuoteInJoin(values, ',');
    ReadRowCountsCommas(line);
  }

  lemma CountCharAbsent(s: string, c: char)
    requires c !in s
    ensures CountChar(s, c) == 0
  {
    if |s| > 0 {
      assert c !in s[1..] by {
        assert forall k :: 0 <= k < |s[1..]| ==> s[1..][k] == s[k + 1];
      }
      CountCharAbsent(s[1..], c);
    }
  }

  /** A join of parts without double quotes, by a separator other than a double quote, has none. */
  lemma {:induction false} NoQuoteInJoin(parts: seq<string>, sep: char)
    requires sep != '"'
    requires forall k :: 0 <= k < |parts| ==> '"' !in parts[k]
    ensures '"' !in Join(parts, sep)
  {
    if |parts| > 1 {
      NoQuoteInJoin(parts[1..], sep);
    }
  }

  /** The values of every row, in row order. */
  function AllDataValues(rows: seq<DataRow>, numText: real -> string): (values: seq<seq<string>>)
    ensures |values| == |rows|
    ensures forall k :: 0 <= k < |rows| ==> values[k] == DataValues(rows[k], numText)
  {
    seq(|rows|, k requires 0 <= k < |rows| => DataValues(rows[k], numText))
  }

  /** The export with each field escaped as the host's export does it. */
  function ExportCsvEscaped(rows: seq<DataRow>, numText: real -> string): (text: Option<string>)
    ensures text.None? <==> rows == []
  {
    CsvDocument(DataHeader, AllDataValues(rows, numText))
  }

  /** The column names need no quotes, so escaping leaves the header line as it was. */
  lemma EscapedHeaderUnchanged()
    ensures CsvLine(DataHeader) == Join(DataHeader, ',')
  {
    assert forall k :: 0 <= k < |DataHeader| ==> !NeedsQuotes(DataHeader[k]);
    PlainJoinIsCsvLine(DataHeader);
  }

  /** Escaped, every data line reads back as exactly the six values of its row, whatever they hold. */
  lemma EscapedRowsReadBack(rows: seq<DataRow>, numText: real -> string)
    ensures forall k :: 0 <= k < |rows| ==> ReadRow(CsvLine(DataValues(rows[k], numText))) == DataValues(rows[k], numText)
  {
    forall k | 0 <= k < |rows| ensures ReadRow(CsvLine(DataValues(rows[k], numText))) == DataValues(rows[k], numText) {
      CsvLineRoundTrip(DataValues(rows[k], numText));
    }
  }
}
