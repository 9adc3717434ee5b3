/** The string operations the application relies on: `toLowerCase` for
    e-mail comparison, `trim` for the note guards, `join` and the CSV field
    escaping of the exports, together with a CSV row reader (the inverse the
    escaping is written for). */
module Text {
  import opened Lists

  predicate IsUpper(c: char)
  {
    'A' <= c <= 'Z'
  }

  /** `toLowerCase` on one character; only the ASCII letters are mapped. */
  function LowerChar(c: char): (r: char)
    ensures !IsUpper(r)
    ensures IsUpper(c) ==> r as int == c as int + 32
    ensures !IsUpper(c) ==> r == c
  {
    if IsUpper(c) then (c as int + 32) as char else c
  }

  function Lower(s: string): (r: string)
    ensures |r| == |s|
    ensures forall k :: 0 <= k < |r| ==> !IsUpper(r[k])
    ensures forall k :: 0 <= k < |s| && !IsUpper(s[k]) ==> r[k] == s[k]
  {
    seq(|s|, k requires 0 <= k < |s| => LowerChar(s[k]))
  }

  /** Lower-casing twice is lower-casing once. */
  lemma LowerIdempotent(s: string)
    ensures Lower(Lower(s)) == Lower(s)
  {
    var once := Lower(s);
    assert forall k :: 0 <= k < |once| ==> Lower(once)[k] == once[k];
  }

  /** Two e-mail addresses are the same account name when they agree after lower-casing. */
  predicate SameEmail(a: string, b: string)
  {
    Lower(a) == Lower(b)
  }

  /** The comparison ignores the letter case of ASCII letters and nothing else. */
  lemma SameEmailIgnoresCase(a: string, b: string)
    ensures SameEmail(a, b) <==> |a| == |b| && forall k :: 0 <= k < |a| ==> LowerChar(a[k]) == LowerChar(b[k])
  {
    assert forall k :: 0 <= k < |a| ==> Lower(a)[k] == LowerChar(a[k]);
    assert forall k :: 0 <= k < |b| ==> Lower(b)[k] == LowerChar(b[k]);
  }

  /** The characters `trim` removes: the white space and line terminator characters of section 12.2
      and 12.3 of ECMA-262 (tab, vertical tab, form feed, the space separators, the byte order mark,
      line feed, carriage return, and the line and paragraph separators). */
  predicate IsSpace(c: char)
  {
    c == '\t' || c == '\n' || c == '\U{0B}' || c == '\U{0C}' || c == '\r' || c == ' ' || c == '\U{A0}'
    || c == '\U{1680}' || ('\U{2000}' <= c <= '\U{200A}') || c == '\U{2028}' || c == '\U{2029}'
    || c == '\U{202F}' || c == '\U{205F}' || c == '\U{3000}' || c == '\U{FEFF}'
  }

  /** Drops the leading white space. */
  function TrimStart(s: string): (r: string)
    ensures |r| <= |s| && r == s[|s| - |r|..]
    ensures forall k :: 0 <= k < |s| - |r| ==> IsSpace(s[k])
    ensures r != [] ==> !IsSpace(r[0])
  {
    if |s| > 0 && IsSpace(s[0]) then
      var r := TrimStart(s[1..]);
      assert forall k :: 1 <= k < |s| - |r| ==> s[k] == s[1..][k - 1];
      r
    else s
  }

  /** Drops the trailing white space. */
  function TrimEnd(s: string): (r: string)
    ensures |r| <= |s| && r == s[..|r|]
    ensures forall k :: |r| <= k < |s| ==> IsSpace(s[k])
    ensures r != [] ==> !IsSpace(r[|r| - 1])
  {
    if |s| > 0 && IsSpace(s[|s| - 1]) then TrimEnd(s[..|s| - 1]) else s
  }

  /** `s.trim()`: what is left is empty exactly when `s` holds nothing but white space. */
  function Trim(s: string): (r: string)
    ensures r != [] ==> !IsSpace(r[0]) && !IsSpace(r[|r| - 1])
    ensures r == [] <==> forall k :: 0 <= k < |s| ==> IsSpace(s[k])
  {
    var start := TrimStart(s);
    var r := TrimEnd(start);
    assert forall k :: 0 <= k < |start| ==> start[k] == s[|s| - |start| + k];
    r
  }

  /** `parts.join(sep)`. */
  function Join(parts: seq<string>, sep: char): string
  {
    if |parts| == 0 then ""
    else if |parts| == 1 then parts[0]
    else parts[0] + [sep] + Join(parts[1..], sep)
  }

  /** A field is quoted when it holds a comma, a double quote or a line feed. */
  predicate NeedsQuotes(s: string)
  {
    ',' in s || '"' in s || '\n' in s
  }

  /** `replace(/"/g, '""')`. */
  function DoubleQuotes(s: string): (r: string)
    ensures |r| >= |s|
  {
    if |s| == 0 then ""
    else (if s[0] == '"' then "\"\"" else [s[0]]) + DoubleQuotes(s[1..])
  }

  /** The export's `escapeCSV`: a field needing quotes is wrapped in double quotes with its own double
      quotes doubled; any other field is written as it is. */
  function EscapeCsv(s: string): (r: string)
    ensures r == s <==> !NeedsQuotes(s)
  {
    if NeedsQuotes(s) then "\"" + DoubleQuotes(s) + "\"" else s
  }

  /** One CSV line from its fields, each escaped. */
  function CsvLine(fields: seq<string>): (line: string)
  {
    Join(seq(|fields|, k requires 0 <= k < |fields| => EscapeCsv(fields[k])), ',')
  }

  /** Reads the inside of a quoted field (the opening quote already consumed) up to its closing quote:
      the field's text and what follows the closing quote. */
  function ReadQuoted(s: string): (r: (string, string))
    ensures |r.1| <= |s|
  {
    if |s| == 0 then ("", "")
    else if s[0] == '"' then
      if |s| >= 2 && s[1] == '"' then
        var (field, rest) := ReadQuoted(s[2..]);
        ("\"" + field, rest)
      else ("", s[1..])
    else
      var (field, rest) := ReadQuoted(s[1..]);
      ([s[0]] + field, rest)
  }

  /** Reads an unquoted field up to the next comma. */
  function ReadPlain(s: string): (r: (string, string))
    ensures |r.1| <= |s|
  {
    if |s| == 0 || s[0] == ',' then ("", s)
    else
      var (field, rest) := ReadPlain(s[1..]);
      ([s[0]] + field, rest)
  }

  function ReadField(s: string): (r: (string, string))
    ensures |r.1| <= |s|
  {
    if |s| > 0 && s[0] == '"' then ReadQuoted(s[1..]) else ReadPlain(s)
  }

  /** Reads the comma-separated fields of one CSV line, honouring quotes as the escaping writes them. */
  function ReadRow(s: string): (fields: seq<string>)
    ensures |fields| > 0
    decreases |s|
  {
    var (field, rest) := ReadField(s);
    if |rest| > 0 && rest[0] == ',' then [field] + ReadRow(rest[1..]) else [field]
  }

  /** What may follow a field: the end of the line or the separating comma. */
  predicate FieldEnd(tail: string)
  {
    tail == [] || tail[0] == ','
  }

  lemma {:induction false} ReadQuotedDoubled(s: string, tail: string)
    requires FieldEnd(tail)
    ensures ReadQuoted(DoubleQuotes(s) + "\"" + tail) == (s, tail)
  {
    var input := DoubleQuotes(s) + "\"" + tail;
    if |s| == 0 {
      assert input == "\"" + tail;
      assert input[1..] == tail;
    } else {
      var d := DoubleQuotes(s[1..]);
      var rest := d + "\"" + tail;
      ReadQuotedDoubled(s[1..], tail);
      assert ReadQuoted(rest) == (s[1..], tail);
      if s[0] == '"' {
        assert DoubleQuotes(s) == "\"\"" + d;
        assert input == "\"\"" + rest;
        ReadQuotedPair(rest, s[1..], tail);
        assert s == "\"" + s[1..];
      } else {
        assert DoubleQuotes(s) == [s[0]] + d;
        assert input == [s[0]] + rest;
        ReadQuotedChar(s[0], rest, s[1..], tail);
        assert s == [s[0]] + s[1..];
      }
    }
  }

  /** Inside quotes, a doubled quote reads as one quote. */
  lemma ReadQuotedPair(rest: string, field: string, tail: string)
    requires ReadQuoted(rest) == (field, tail)
    ensures ReadQuoted("\"\"" + rest) == ("\"" + field, tail)
  {
    var input := "\"\"" + rest;
    assert input[0] == '"' && input[1] == '"' && input[2..] == rest;
  }

  /** Inside quotes, any other character reads as itself. */
  lemma ReadQuotedChar(c: char, rest: string, field: string, tail: string)
    requires c != '"' && ReadQuoted(rest) == (field, tail)
    ensures ReadQuoted([c] + rest) == ([c] + field, tail)
  {
    assert ([c] + rest)[1..] == rest;
  }

  lemma {:induction false} ReadPlainUnquoted(s: string, tail: string)
    requires ',' !in s && FieldEnd(tail)
    ensures ReadPlain(s + tail) == (s, tail)
  {
    if |s| == 0 {
      assert s + tail == tail;
    } else {
      assert (s + tail)[1..] == s[1..] + tail;
      ReadPlainUnquoted(s[1..], tail);
      assert s == [s[0]] + s[1..];
    }
  }

  /** An escaped field, followed by the end of the line or a comma, reads back as the field itself. */
  lemma ReadEscapedField(s: string, tail: string)
    requires FieldEnd(tail)
    ensures ReadField(EscapeCsv(s) + tail) == (s, tail)
  {
    if NeedsQuotes(s) {
      ReadQuotedField(s, tail);
    } else {
      ReadUnquotedField(s, tail);
    }
  }

  /** A value with a comma, a double quote or a newline is read back from its quoted form. */
  lemma ReadQuotedField(s: string, tail: string)
    requires FieldEnd(tail) && NeedsQuotes(s)
    ensures ReadField(EscapeCsv(s) + tail) == (s, tail)
  {
    var doubled := DoubleQuotes(s);
    assert EscapeCsv(s) == "\"" + doubled + "\"";
    assert ("\"" + doubled + "\"") + tail == "\"" + (doubled + "\"" + tail);
    ReadFieldQuoted(doubled + "\"" + tail);
    ReadQuotedDoubled(s, tail);
  }

  /** Any other value is written as it is and read back up to the next comma. */
  lemma ReadUnquotedField(s: string, tail: string)
    requires FieldEnd(tail) && !NeedsQuotes(s)
    ensures ReadField(EscapeCsv(s) + tail) == (s, tail)
  {
    assert EscapeCsv(s) + tail == s + tail;
    ReadPlainUnquoted(s, tail);
    assert '"' !in s;
    ReadFieldPlain(s + tail);
  }

  lemma ReadFieldQuoted(s: string)
    ensures ReadField("\"" + s) == ReadQuoted(s)
  {
    assert ("\"" + s)[1..] == s;
  }

  lemma ReadFieldPlain(s: string)
    requires |s| == 0 || s[0] != '"'
    ensures ReadField(s) == ReadPlain(s)
  {
  }

  /** Escaping makes a line round-trip: reading the line gives back exactly the fields written. */
  lemma {:induction false} CsvLineRoundTrip(fields: seq<string>)
    requires |fields| > 0
    ensures ReadRow(CsvLine(fields)) == fields
  {
    var escaped := seq(|fields|, k requires 0 <= k < |fields| => EscapeCsv(fields[k]));
    if |fields| == 1 {
      ReadEscapedField(fields[0], "");
      assert CsvLine(fields) == EscapeCsv(fields[0]) + "";
    } else {
      var restLine := CsvLine(fields[1..]);
      assert escaped[1..] == seq(|fields[1..]|, k requires 0 <= k < |fields[1..]| => EscapeCsv(fields[1..][k]));
      assert CsvLine(fields) == EscapeCsv(fields[0]) + ("," + restLine);
      ReadEscapedField(fields[0], "," + restLine);
      CsvLineRoundTrip(fields[1..]);
      assert ("," + restLine)[1..] == restLine;
      assert fields == [fields[0]] + fields[1..];
    }
  }

  /** Fields that need no quotes are written unchanged, so for them the plain `join(',')` is the
      escaped line. */
  lemma {:induction false} PlainJoinIsCsvLine(fields: seq<string>)
    requires forall k :: 0 <= k < |fields| ==> !NeedsQuotes(fields[k])
    ensures Join(fields, ',') == CsvLine(fields)
  {
    var escaped := seq(|fields|, k requires 0 <= k < |fields| => EscapeCsv(fields[k]));
    assert escaped == fields;
  }

  /** How often `c` occurs in `s`. */
  function CountChar(s: string, c: char): nat
  {
    if |s| == 0 then 0 else (if s[0] == c then 1 else 0) + CountChar(s[1..], c)
  }

  lemma {:induction false} CountCharAppend(a: string, b: string, c: char)
    ensures CountChar(a + b, c) == CountChar(a, c) + CountChar(b, c)
  {
    if |a| > 0 {
      assert (a + b)[1..] == a[1..] + b;
      CountCharAppend(a[1..], b, c);
    } else {
      assert a + b == b;
    }
  }

  /** How often `c` occurs in all the parts together. */
  function CountInParts(parts: seq<string>, c: char): nat
  {
    if |parts| == 0 then 0 else CountChar(parts[0], c) + CountInParts(parts[1..], c)
  }

  /** Joining adds one separator between each two parts. */
  lemma {:induction false} JoinCountsSeparators(parts: seq<string>, sep: char)
    requires |parts| > 0
    ensures CountChar(Join(parts, sep), sep) == CountInParts(parts, sep) + |parts| - 1
  {
    if |parts| > 1 {
      JoinCountsSeparators(parts[1..], sep);
      CountCharAppend(parts[0] + [sep], Join(parts[1..], sep), sep);
      CountCharAppend(parts[0], [sep], sep);
      assert CountInParts(parts[1..][1..], sep) == CountInParts(parts[2..], sep) by {
        assert parts[1..][1..] == parts[2..];
      }
    } else {
      assert parts[1..] == [];
    }
  }

  /** An unquoted field runs up to the first comma, which is left in the rest. */
  lemma {:induction false} ReadPlainSplits(s: string)
    ensures ReadPlain(s).0 + ReadPlain(s).1 == s
    ensures CountChar(ReadPlain(s).0, ',') == 0
    ensures FieldEnd(ReadPlain(s).1)
  {
    if |s| > 0 && s[0] != ',' {
      var (field, rest) := ReadPlain(s[1..]);
      ReadPlainSplits(s[1..]);
      var longer := [s[0]] + field;
      assert ReadPlain(s) == (longer, rest);
      assert longer[0] == s[0] && longer[1..] == field;
      assert CountChar(longer, ',') == CountChar(field, ',');
      assert longer + rest == [s[0]] + (field + rest);
    }
  }

  /** On a line without double quotes every comma separates two fields. */
  lemma {:induction false} ReadRowCountsCommas(s: string)
    requires '"' !in s
    ensures |ReadRow(s)| == CountChar(s, ',') + 1
    decreases |s|
  {
    ReadFieldPlain(s);
    ReadPlainSplits(s);
    var (field, rest) := ReadPlain(s);
    CountCharAppend(field, rest, ',');
    if |rest| > 0 {
      assert rest == [','] + rest[1..];
      CountCharAppend([','], rest[1..], ',');
      assert '"' !in rest[1..] by {
        assert forall k :: 0 <= k < |rest[1..]| ==> rest[1..][k] == s[|field| + 1 + k];
      }
      ReadRowCountsCommas(rest[1..]);
    }
  }

  /** A file of one header line and data lines, written with escaped fields; nothing when there is no
      data. */
  function CsvDocument(header: seq<string>, rows: seq<seq<string>>): (text: Option<string>)
    ensures text.None? <==> rows == []
  {
    if |rows| == 0 then None
    else Some(CsvLine(header) + "\n" + Join(seq(|rows|, k requires 0 <= k < |rows| => CsvLine(rows[k])), '\n'))
  }

  /** The file is its lines joined by line feeds, the header's line first, and each line, read back,
      gives exactly the fields it was written from. */
  lemma CsvDocumentLines(header: seq<string>, rows: seq<seq<string>>)
    requires |header| > 0 && rows != []
    requires forall k :: 0 <= k < |rows| ==> |rows[k]| > 0
    ensures var lines := [CsvLine(header)] + seq(|rows|, k requires 0 <= k < |rows| => CsvLine(rows[k]));
      && CsvDocument(header, rows) == Some(Join(lines, '\n'))
      && ReadRow(lines[0]) == header
      && forall k :: 1 <= k < |lines| ==> ReadRow(lines[k]) == rows[k - 1]
  {
    var rowLines := seq(|rows|, k requires 0 <= k < |rows| => CsvLine(rows[k]));
    var lines := [CsvLine(header)] + rowLines;
    assert lines[1..] == rowLines;
    CsvLineRoundTrip(header);
    forall k | 1 <= k < |lines| ensures ReadRow(lines[k]) == rows[k - 1] {
      CsvLineRoundTrip(rows[k - 1]);
    }
  }
}
