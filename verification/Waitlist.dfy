/** The waitlist export (src/waitlist.ts 163-187), and a reader of the format it claims: CSV as
    section 2 of RFC 4180 describes it. */
module Waitlist {
  import opened Pricing

  /** A row; a nullable column is None when it is null. */
  datatype Row = Row(email: string, source: Option<string>, referrer: Option<string>, createdAt: string)

  // ---- The printer -------------------------------------------------------------

  predicate Formula(c: char) { c in {'=', '+', '-', '@', '\t', '\r'} }

  /** Text a spreadsheet would take for a formula gets a quote in front. */
  function Guard(raw: string): (text: string)
    ensures text == "" || !Formula(text[0])
    ensures text == raw || text == "'" + raw
    ensures text == raw <==> raw == "" || raw[0] !in ['=', '+', '-', '@', '\t', '\r']
  {
    if raw != "" && Formula(raw[0]) then "'" + raw else raw
  }

  function Escape(text: string): string
  {
    if text == "" then "" else (if text[0] == '"' then "\"\"" else [text[0]]) + Escape(text[1..])
  }

  function CellText(value: Option<string>): string
  {
    Guard(if value.Some? then value.value else "")
  }

  function CsvCell(value: Option<string>): string
  {
    "\"" + Escape(CellText(value)) + "\""
  }

  /** `replace(/"/g, '""')`, from left to right. */
  method EscapeQuotes(text: string) returns (out: string)
    ensures out == Escape(text)
  {
    out := "";
    for i := 0 to |text|
      invariant out + Escape(text[i..]) == Escape(text)
    {
      assert text[i..][1..] == text[i + 1..];
      var piece := if text[i] == '"' then "\"\"" else [text[i]];
      assert out + piece + Escape(text[i + 1..]) == out + Escape(text[i..]);
      out := out + piece;
    }
    assert out + "" == out;
  }

  function Cells(row: Row): seq<Option<string>>
  {
    [Some(row.email), row.source, row.referrer, Some(row.createdAt)]
  }

  /** What the reader should find in a row. */
  function Texts(row: Row): seq<string>
  {
    [CellText(Some(row.email)), CellText(row.source), CellText(row.referrer), CellText(Some(row.createdAt))]
  }

  function Line(row: Row): string
  {
    CsvCell(Some(row.email)) + "," + (CsvCell(row.source) + "," + (CsvCell(row.referrer) + "," + CsvCell(Some(row.createdAt))))
  }

  function Header(): string { "email,source,referrer,created_at" }

  function HeaderTexts(): seq<string> { ["email", "source", "referrer", "created_at"] }

  function Lines(rows: seq<Row>): string
  {
    if rows == [] then "" else Line(rows[0]) + ("\r\n" + Lines(rows[1..]))
  }

  function Csv(rows: seq<Row>): string { Header() + ("\r\n" + Lines(rows)) }

  method PrintCell(value: Option<string>) returns (cell: string)
    ensures cell == CsvCell(value)
  {
    var raw := if value.Some? then value.value else "";
    var escaped := EscapeQuotes(Guard(raw));
    cell := "\"" + escaped + "\"";
  }

  method WaitlistCsv(rows: seq<Row>) returns (text: string)
    ensures text == Csv(rows)
  {
    var lines := [Header()];
    for i := 0 to |rows|
      invariant |lines| == i + 1 && lines[0] == Header()
      invariant forall k :: 0 <= k < i ==> lines[k + 1] == Line(rows[k])
    {
      var email := PrintCell(Some(rows[i].email));
      var source := PrintCell(rows[i].source);
      var referrer := PrintCell(rows[i].referrer);
      var createdAt := PrintCell(Some(rows[i].createdAt));
      lines := lines + [email + "," + (source + "," + (referrer + "," + createdAt))];
    }
    text := Join(lines);
    JoinedLines(lines[1..], rows);
  }

  /** `lines.join("\r\n") + "\r\n"`. */
  method Join(lines: seq<string>) returns (text: string)
    ensures text == Joined(lines)
  {
    text := "";
    for i := 0 to |lines|
      invariant text + Joined(lines[i..]) == Joined(lines)
    {
      assert lines[i..][1..] == lines[i + 1..];
      assert text + (lines[i] + ("\r\n" + Joined(lines[i + 1..]))) == text + lines[i] + "\r\n" + Joined(lines[i + 1..]);
      text := text + lines[i] + "\r\n";
    }
    assert text + "" == text;
  }

  function Joined(lines: seq<string>): string
  {
    if lines == [] then "" else lines[0] + ("\r\n" + Joined(lines[1..]))
  }

  lemma {:induction false} JoinedLines(lines: seq<string>, rows: seq<Row>)
    requires |lines| == |rows| && forall k :: 0 <= k < |rows| ==> lines[k] == Line(rows[k])
    ensures Joined(lines) == Lines(rows)
  {
    if rows != [] { JoinedLines(lines[1..], rows[1..]); }
  }

  // ---- The reader --------------------------------------------------------------

  /** The field just read, and the text after it. */
  datatype Read<T> = Read(value: T, rest: string)

  /** `TEXTDATA`: anything but a quote, a comma or a line break. */
  predicate TextData(c: char) { c !in {'"', ',', '\r', '\n'} }

  /** `*TEXTDATA`. */
  function ReadPlain(s: string): (r: Read<string>)
    ensures |r.rest| <= |s|
  {
    if s == "" || !TextData(s[0]) then Read("", s)
    else
      var more := ReadPlain(s[1..]);
      Read([s[0]] + more.value, more.rest)
  }

  /** `*(TEXTDATA / COMMA / CR / LF / 2DQUOTE) DQUOTE`, after the opening quote. */
  function ReadQuoted(s: string): (r: Option<Read<string>>)
    ensures r.Some? ==> |r.value.rest| < |s|
  {
    if s == "" then None
    else if s[0] == '"' && |s| > 1 && s[1] == '"' then
      match ReadQuoted(s[2..])
      case None => None
      case Some(more) => Some(Read("\"" + more.value, more.rest))
    else if s[0] == '"' then Some(Read("", s[1..]))
    else
      match ReadQuoted(s[1..])
      case None => None
      case Some(more) => Some(Read([s[0]] + more.value, more.rest))
  }

  /** `field = (escaped / non-escaped)`. */
  function ReadField(s: string): (r: Option<Read<string>>)
    ensures r.Some? ==> |r.value.rest| <= |s|
  {
    if s != "" && s[0] == '"' then ReadQuoted(s[1..]) else Some(ReadPlain(s))
  }

  /** `record = field *(COMMA field)`. */
  function ReadRecord(s: string): (r: Option<Read<seq<string>>>)
    ensures r.Some? ==> |r.value.rest| <= |s|
    decreases |s|
  {
    match ReadField(s)
    case None => None
    case Some(field) =>
      if field.rest != "" && field.rest[0] == ',' then
        match ReadRecord(field.rest[1..])
        case None => None
        case Some(more) => Some(Read([field.value] + more.value, more.rest))
      else Some(Read([field.value], field.rest))
  }

  /** `file = [header CRLF] record *(CRLF record) [CRLF]`, the header read like any record. */
  function ReadFile(s: string): Option<seq<seq<string>>>
    decreases |s|
  {
    match ReadRecord(s)
    case None => None
    case Some(record) =>
      if record.rest == "" then Some([record.value])
      else if !("\r\n" <= record.rest) then None
      else if |record.rest| == 2 then Some([record.value])
      else
        match ReadFile(record.rest[2..])
        case None => None
        case Some(more) => Some([record.value] + more)
  }

  // ---- The round trip ----------------------------------------------------------

  lemma {:induction false} QuotedReadsBack(text: string, rest: string)
    requires rest == "" || rest[0] != '"'
    ensures ReadQuoted(Escape(text) + ("\"" + rest)) == Some(Read(text, rest))
  {
    var s := Escape(text) + ("\"" + rest);
    if text == "" {
      assert s == "\"" + rest;
      assert s[1..] == rest;
    } else {
      QuotedReadsBack(text[1..], rest);
      var more := Escape(text[1..]) + ("\"" + rest);
      if text[0] == '"' {
        assert s == "\"\"" + more && s[2..] == more;
      } else {
        assert s == [text[0]] + more && s[1..] == more;
      }
      assert [text[0]] + text[1..] == text;
    }
  }

  lemma CellReadsBack(value: Option<string>, rest: string)
    requires rest == "" || rest[0] != '"'
    ensures ReadField(CsvCell(value) + rest) == Some(Read(CellText(value), rest))
  {
    var s := CsvCell(value) + rest;
    assert s[1..] == Escape(CellText(value)) + ("\"" + rest);
    QuotedReadsBack(CellText(value), rest);
  }

  /** May a record end here? */
  predicate Ends(rest: string) { rest == "" || "\r\n" <= rest }

  /** `cells.join(",")`. */
  function JoinedCells(cells: seq<Option<string>>): string
    requires cells != []
  {
    if |cells| == 1 then CsvCell(cells[0]) else CsvCell(cells[0]) + ("," + JoinedCells(cells[1..]))
  }

  function CellTexts(cells: seq<Option<string>>): seq<string>
  {
    seq(|cells|, i requires 0 <= i < |cells| => CellText(cells[i]))
  }

  lemma CellThenMore(value: Option<string>, tail: string, texts: seq<string>, rest: string)
    requires ReadRecord(tail) == Some(Read(texts, rest))
    ensures ReadRecord(CsvCell(value) + ("," + tail)) == Some(Read([CellText(value)] + texts, rest))
  {
    CellReadsBack(value, "," + tail);
    assert ("," + tail)[1..] == tail;
  }

  lemma LastCell(value: Option<string>, rest: string)
    requires Ends(rest)
    ensures ReadRecord(CsvCell(value) + rest) == Some(Read([CellText(value)], rest))
  {
    CellReadsBack(value, rest);
  }

  lemma {:induction false} CellsReadBack(cells: seq<Option<string>>, texts: seq<string>, rest: string)
    requires cells != [] && Ends(rest) && texts == CellTexts(cells)
    ensures ReadRecord(JoinedCells(cells) + rest) == Some(Read(texts, rest))
  {
    if |cells| == 1 {
      LastCell(cells[0], rest);
      assert texts == [CellText(cells[0])];
    } else {
      var joined := JoinedCells(cells[1..]);
      assert texts[1..] == CellTexts(cells[1..]) && [texts[0]] + texts[1..] == texts;
      CellsReadBack(cells[1..], texts[1..], rest);
      CellThenMore(cells[0], joined + rest, texts[1..], rest);
      Regroup(CsvCell(cells[0]), joined, rest);
    }
  }

  lemma Regroup(a: string, b: string, c: string)
    ensures (a + ("," + b)) + c == a + ("," + (b + c))
  {}

  lemma LineIsItsCells(row: Row)
    ensures Line(row) == JoinedCells(Cells(row)) && CellTexts(Cells(row)) == Texts(row)
  {
    var cells := Cells(row);
    var three, two, one := cells[1..], cells[2..], cells[3..];
    assert three[1..] == two && two[1..] == one;
    assert JoinedCells(one) == CsvCell(Some(row.createdAt));
    assert JoinedCells(two) == CsvCell(row.referrer) + ("," + JoinedCells(one));
    assert JoinedCells(three) == CsvCell(row.source) + ("," + JoinedCells(two));
  }

  lemma LineReadsBack(row: Row, rest: string)
    requires Ends(rest)
    ensures ReadRecord(Line(row) + rest) == Some(Read(Texts(row), rest))
  {
    LineIsItsCells(row);
    CellsReadBack(Cells(row), Texts(row), rest);
  }

  function AllTexts(rows: seq<Row>): seq<seq<string>>
  {
    if rows == [] then [] else [Texts(rows[0])] + AllTexts(rows[1..])
  }

  /** One record and its line break, then the rest of the file. */
  lemma RecordThenMore(s: string, texts: seq<string>, more: string, others: seq<seq<string>>)
    requires ReadRecord(s) == Some(Read(texts, "\r\n" + more)) && more != "" && ReadFile(more) == Some(others)
    ensures ReadFile(s) == Some([texts] + others)
  {}

  lemma LastRecord(s: string, texts: seq<string>)
    requires ReadRecord(s) == Some(Read(texts, "\r\n"))
    ensures ReadFile(s) == Some([texts])
  {}

  lemma {:induction false} LinesReadBack(rows: seq<Row>)
    requires rows != []
    ensures ReadFile(Lines(rows)) == Some(AllTexts(rows))
  {
    var rest := "\r\n" + Lines(rows[1..]);
    LineReadsBack(rows[0], rest);
    assert Lines(rows) == Line(rows[0]) + rest;
    if |rows| == 1 {
      assert rest == "\r\n";
      LastRecord(Lines(rows), Texts(rows[0]));
      assert AllTexts(rows) == [Texts(rows[0])];
    } else {
      LinesReadBack(rows[1..]);
      RecordThenMore(Lines(rows), Texts(rows[0]), Lines(rows[1..]), AllTexts(rows[1..]));
    }
  }

  lemma {:induction false} PlainReadsBack(text: string, rest: string)
    requires (forall c :: c in text ==> TextData(c)) && (rest == "" || !TextData(rest[0]))
    ensures ReadPlain(text + rest) == Read(text, rest)
  {
    if text == "" {
      assert text + rest == rest;
    } else {
      PlainReadsBack(text[1..], rest);
      assert (text + rest)[1..] == text[1..] + rest;
      assert [text[0]] + text[1..] == text;
    }
  }

  function JoinedTexts(texts: seq<string>): string
    requires texts != []
  {
    if |texts| == 1 then texts[0] else texts[0] + ("," + JoinedTexts(texts[1..]))
  }

  predicate Plain(text: string) { text != "" && forall c :: c in text ==> TextData(c) }

  lemma TextThenMore(text: string, tail: string, texts: seq<string>, rest: string)
    requires Plain(text) && ReadRecord(tail) == Some(Read(texts, rest))
    ensures ReadRecord(text + ("," + tail)) == Some(Read([text] + texts, rest))
  {
    PlainReadsBack(text, "," + tail);
    assert ("," + tail)[1..] == tail;
  }

  lemma LastText(text: string, rest: string)
    requires Plain(text) && "\r\n" <= rest
    ensures ReadRecord(text + rest) == Some(Read([text], rest))
  {
    assert rest[0] == '\r';
    PlainReadsBack(text, rest);
  }

  lemma {:induction false} TextsReadBack(texts: seq<string>, rest: string)
    requires texts != [] && "\r\n" <= rest
    requires forall t :: t in texts ==> Plain(t)
    ensures ReadRecord(JoinedTexts(texts) + rest) == Some(Read(texts, rest))
  {
    assert texts[0] in texts;
    if |texts| == 1 {
      LastText(texts[0], rest);
      assert [texts[0]] == texts;
    } else {
      var tail := JoinedTexts(texts[1..]) + rest;
      assert forall t :: t in texts[1..] ==> t in texts;
      TextsReadBack(texts[1..], rest);
      TextThenMore(texts[0], tail, texts[1..], rest);
      assert JoinedTexts(texts) + rest == texts[0] + ("," + tail);
      assert [texts[0]] + texts[1..] == texts;
    }
  }

  lemma HeaderIsItsTexts()
    ensures Header() == JoinedTexts(HeaderTexts())
  {
    var t := HeaderTexts();
    var three, two, one := t[1..], t[2..], t[3..];
    assert three[1..] == two && two[1..] == one;
    assert JoinedTexts(one) == "created_at";
    assert JoinedTexts(two) == "referrer" + ("," + "created_at");
    assert JoinedTexts(three) == "source" + ("," + ("referrer" + ("," + "created_at")));
  }

  lemma HeaderReadsBack(rest: string)
    requires "\r\n" <= rest
    ensures ReadRecord(Header() + rest) == Some(Read(HeaderTexts(), rest))
  {
    HeaderIsItsTexts();
    TextsReadBack(HeaderTexts(), rest);
  }

  /** How a column reads in the export: an absent value as nothing, a text as it is, but with a
      quote mark before it exactly if it starts as a formula does. */
  predicate Shown(text: string, value: Option<string>)
  {
    match value
    case None => text == ""
    case Some(raw) =>
      if raw != "" && raw[0] in ['=', '+', '-', '@', '\t', '\r'] then |text| == |raw| + 1 && text[0] == '\'' && text[1..] == raw
      else text == raw
  }

  /** One record of the file is one row of the table, column by column. */
  predicate ShowsRow(fields: seq<string>, row: Row)
  {
    && |fields| == 4
    && Shown(fields[0], Some(row.email)) && Shown(fields[1], row.source)
    && Shown(fields[2], row.referrer) && Shown(fields[3], Some(row.createdAt))
  }

  lemma {:induction false} RowsAreShown(rows: seq<Row>, i: nat)
    requires i < |rows|
    ensures |AllTexts(rows)| == |rows| && ShowsRow(AllTexts(rows)[i], rows[i])
  {
    RowIsShown(rows[0]);
    if |rows| > 1 {
      RowsAreShown(rows[1..], if i > 0 then i - 1 else 0);
    }
  }

  lemma RowIsShown(row: Row)
    ensures ShowsRow(Texts(row), row)
  {}

  /** Reading the export back gives the header and then one record per row, whose fields are
      exactly the guarded cell texts, whatever quotes, commas or line breaks they hold. */
  lemma ExportReadsBack(rows: seq<Row>)
    ensures ReadFile(Csv(rows)) == Some([HeaderTexts()] + AllTexts(rows))
    ensures var read := ReadFile(Csv(rows)).value;
            && |read| == |rows| + 1 && read[0] == ["email", "source", "referrer", "created_at"]
            && forall i :: 0 <= i < |rows| ==> ShowsRow(read[i + 1], rows[i])
  {
    forall i | 0 <= i < |rows| ensures |AllTexts(rows)| == |rows| && ShowsRow(AllTexts(rows)[i], rows[i]) {
      RowsAreShown(rows, i);
    }
    var rest := "\r\n" + Lines(rows);
    assert rest[..2] == "\r\n";
    HeaderReadsBack(rest);
    if rows == [] {
      assert rest == "\r\n";
      LastRecord(Csv(rows), HeaderTexts());
      assert [HeaderTexts()] + AllTexts(rows) == [HeaderTexts()];
    } else {
      LinesReadBack(rows);
      RecordThenMore(Csv(rows), HeaderTexts(), Lines(rows), AllTexts(rows));
    }
  }
}
