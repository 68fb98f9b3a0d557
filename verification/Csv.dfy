/** The invoice export: how cells are quoted and made harmless to spreadsheets, and what a reader of
  * section 2 of RFC 4180 gets back. */
module Csv {
  import Sums
  import T = Text

  // ---- The writer ----

  /** The characters that make a spreadsheet evaluate a cell. */
  predicate StartsFormula(c: char) { c == '=' || c == '+' || c == '-' || c == '@' }

  predicate Hazardous(value: string) {
    var rest := T.TrimStart(value);
    || (rest != [] && StartsFormula(rest[0]))
    || (value != [] && (value[0] == '\t' || value[0] == '\r' || value[0] == '\n'))
  }

  function Neutral(value: string): string { if Hazardous(value) then "'" + value else value }

  /** Every double quote written twice. */
  function Doubled(value: string): string {
    if value == [] then [] else (if value[0] == '"' then "\"\"" else [value[0]]) + Doubled(value[1..])
  }

  function Cell(value: string): string { "\"" + Doubled(Neutral(value)) + "\"" }

  /** A line of the file has at least one field. */
  type Fields = fields: seq<string> | fields != [] witness [""]

  function Cells(fields: Fields): Fields {
    if |fields| == 1 then [Cell(fields[0])] else [Cell(fields[0])] + Cells(fields[1..])
  }

  function Join(cells: Fields): string {
    if |cells| == 1 then cells[0] else cells[0] + ("," + Join(cells[1..]))
  }

  function Line(fields: Fields): string { Join(Cells(fields)) + "\r\n" }

  function Lines(rows: seq<Fields>): string {
    if rows == [] then "" else Lines(rows[..|rows| - 1]) + Line(rows[|rows| - 1])
  }

  const INVOICE_COLUMNS := ["id", "memo_code", "product_name", "currency"]
  const PRICE_COLUMNS := ["amount_fiat", "price_zec", "zec_rate_at_creation"]
  const CONFIRMED_COLUMNS := ["confirmed_rate", "confirmed_fiat_amount", "received_zec"]
  const STATE_COLUMNS := ["status", "txid", "created_at", "confirmed_at"]
  const COLUMNS: Fields := INVOICE_COLUMNS + PRICE_COLUMNS + CONFIRMED_COLUMNS + STATE_COLUMNS

  /** The column names are written without quotes, and their line ends in a bare line feed. */
  function Header(): string { Join(COLUMNS) + "\n" }

  lemma LinePushed(header: string, lines: string, line: string)
    ensures header + lines + line + "\r\n" == header + (lines + (line + "\r\n"))
  {
  }

  lemma LastLine(rows: seq<Fields>, i: nat)
    requires i < |rows|
    ensures Lines(rows[..i + 1]) == Lines(rows[..i]) + Line(rows[i])
  {
    assert rows[..i + 1][..i] == rows[..i];
  }

  method Export(rows: seq<Fields>) returns (csv: string)
    ensures csv == Header() + Lines(rows)
  {
    csv := Header();
    for i := 0 to |rows|
      invariant csv == Header() + Lines(rows[..i])
    {
      LinePushed(Header(), Lines(rows[..i]), Join(Cells(rows[i])));
      LastLine(rows, i);
      csv := csv + Join(Cells(rows[i])) + "\r\n";
    }
    assert rows[..|rows|] == rows;
  }

  // ---- A reader that looks at one character at a time ----

  datatype Mode = Start | Bare | Quoted | Closing | Return | Malformed

  /** `bareFeeds`: whether a line feed without a carriage return ends a record; RFC 4180 says no. */
  datatype Reader = Reader(bareFeeds: bool, mode: Mode, field: string, record: seq<string>, records: seq<seq<string>>) {
    function To(mode: Mode): Reader { this.(mode := mode) }

    function Keep(c: char, mode: Mode): Reader { this.(mode := mode, field := field + [c]) }

    function EndField(): Reader { this.(mode := Start, field := "", record := record + [field]) }

    function EndRecord(): Reader {
      this.(mode := Start, field := "", record := [], records := records + [record + [field]])
    }

    /** What may follow a complete field. */
    function Separator(c: char): Reader {
      if c == ',' then EndField()
      else if c == '\r' then To(Return)
      else if c == '\n' && bareFeeds then EndRecord()
      else To(Malformed)
    }

    predicate Separates(c: char) { c == ',' || c == '\r' || c == '\n' }

    function Step(c: char): Reader {
      match mode
      case Start => if c == '"' then To(Quoted) else if Separates(c) then Separator(c) else Keep(c, Bare)
      case Bare => if c == '"' then To(Malformed) else if Separates(c) then Separator(c) else Keep(c, Bare)
      case Quoted => if c == '"' then To(Closing) else Keep(c, Quoted)
      case Closing => if c == '"' then Keep(c, Quoted) else Separator(c)
      case Return => if c == '\n' then EndRecord() else To(Malformed)
      case Malformed => this
    }

    function Read(text: string): Reader
      decreases |text|
    {
      if text == [] then this else Step(text[0]).Read(text[1..])
    }

    /** The last line break is optional. */
    function Finish(): Sums.Option<seq<seq<string>>> {
      match mode
      case Quoted | Return | Malformed => Sums.None
      case Start => if record == [] then Sums.Some(records) else Sums.Some(EndRecord().records)
      case Bare | Closing => Sums.Some(EndRecord().records)
    }
  }

  function Parse(text: string, bareFeeds: bool): Sums.Option<seq<seq<string>>> {
    Reader(bareFeeds, Start, "", [], []).Read(text).Finish()
  }

  function Neutrals(fields: Fields): (kept: Fields)
    ensures |kept| == |fields|
  {
    seq(|fields|, i requires 0 <= i < |fields| => Neutral(fields[i]))
  }

  function AllNeutral(rows: seq<Fields>): (kept: seq<seq<string>>)
    ensures |kept| == |rows|
  {
    seq(|rows|, i requires 0 <= i < |rows| => Neutrals(rows[i]))
  }

  // ---- What a cell may contain ----

  lemma Apostrophe(value: string)
    ensures !Hazardous("'" + value)
  {
    assert T.TrimStart("'" + value) == "'" + value;
  }

  /** No cell is a formula, with or without leading white space, and writing it again adds nothing. */
  lemma CellsAreHarmless(value: string)
    ensures !Hazardous(Neutral(value))
    ensures Neutral(Neutral(value)) == Neutral(value)
  {
    Apostrophe(value);
  }

  /** Exactly which values the export cannot tell apart. */
  lemma ConfusedValues(a: string, b: string)
    ensures Neutral(a) == Neutral(b) <==>
            a == b || (Hazardous(a) && b == "'" + a) || (Hazardous(b) && a == "'" + b)
  {
    Apostrophe(a);
    Apostrophe(b);
    if Hazardous(a) && Hazardous(b) && "'" + a == "'" + b {
      assert a == ("'" + a)[1..] && b == ("'" + b)[1..];
    }
  }

  // ---- Reading back ----

  lemma {:induction false} ReadConcat(r: Reader, a: string, b: string)
    ensures r.Read(a + b) == r.Read(a).Read(b)
    decreases |a|
  {
    if a == [] {
      assert a + b == b;
    } else {
      assert (a + b)[0] == a[0] && (a + b)[1..] == a[1..] + b;
      ReadConcat(r.Step(a[0]), a[1..], b);
    }
  }

  lemma ReadOne(r: Reader, c: char)
    ensures r.Read([c]) == r.Step(c)
  {
    assert r.Step(c).Read([c][1..]) == r.Step(c);
  }

  /** Inside quotes, doubled text reads as the text itself. */
  lemma {:induction false} ReadDoubled(r: Reader, value: string)
    requires r.mode == Quoted
    ensures r.Read(Doubled(value)) == r.(field := r.field + value)
    decreases |value|
  {
    if value == [] {
      assert r.field + value == r.field;
    } else {
      var c := value[0];
      var first := if c == '"' then "\"\"" else [c];
      ReadConcat(r, first, Doubled(value[1..]));
      if c == '"' {
        assert "\"\"" == ['"'] + ['"'];
        ReadConcat(r, ['"'], ['"']);
        ReadOne(r, '"');
        ReadOne(r.Step('"'), '"');
      } else {
        ReadOne(r, c);
      }
      ReadDoubled(r.Keep(c, Quoted), value[1..]);
      assert r.field + [c] + value[1..] == r.field + value;
    }
  }

  lemma ReadCell(r: Reader, value: string)
    requires r.mode == Start && r.field == ""
    ensures r.Read(Cell(value)) == r.(mode := Closing, field := Neutral(value))
  {
    var inner := Doubled(Neutral(value));
    assert Cell(value) == ['"'] + (inner + ['"']);
    ReadConcat(r, ['"'], inner + ['"']);
    ReadOne(r, '"');
    ReadConcat(r.To(Quoted), inner, ['"']);
    ReadDoubled(r.To(Quoted), Neutral(value));
    ReadOne(r.To(Quoted).(field := Neutral(value)), '"');
    assert "" + Neutral(value) == Neutral(value);
  }

  /** A piece that reads as a complete field, then a comma: the field is filed and the next one begins. */
  lemma ReadComma(r: Reader, piece: string, whole: Reader, rest: string)
    requires r.Read(piece) == whole && (whole.mode == Bare || whole.mode == Closing)
    ensures r.Read(piece + ("," + rest)) == whole.EndField().Read(rest)
  {
    ReadConcat(r, piece, "," + rest);
    ReadConcat(whole, ",", rest);
    ReadOne(whole, ',');
  }

  lemma FirstCell(fields: Fields)
    requires |fields| > 1
    ensures Join(Cells(fields)) == Cell(fields[0]) + ("," + Join(Cells(fields[1..])))
  {
    var rest := Cells(fields[1..]);
    assert ([Cell(fields[0])] + rest)[1..] == rest;
  }

  lemma FirstNeutral(fields: Fields)
    requires |fields| > 1
    ensures Neutrals(fields) == [Neutral(fields[0])] + Neutrals(fields[1..])
  {
  }

  /** The reader after the last field of a line: that field is complete, the earlier ones are filed. */
  predicate Holds(got: Reader, r: Reader, mode: Mode, fields: seq<string>) {
    && got.mode == mode && got.bareFeeds == r.bareFeeds && got.records == r.records
    && got.record + [got.field] == r.record + fields
  }

  lemma HoldsMore(got: Reader, r: Reader, whole: Reader, mode: Mode, fields: seq<string>)
    requires whole.records == r.records && whole.record == r.record && whole.bareFeeds == r.bareFeeds
    requires Holds(got, whole.EndField(), mode, fields)
    ensures Holds(got, r, mode, [whole.field] + fields)
  {
    assert r.record + [whole.field] + fields == r.record + ([whole.field] + fields);
  }

  lemma {:induction false} ReadCells(r: Reader, fields: Fields)
    requires r.mode == Start && r.field == ""
    ensures Holds(r.Read(Join(Cells(fields))), r, Closing, Neutrals(fields))
    decreases |fields|
  {
    ReadCell(r, fields[0]);
    if |fields| == 1 {
      assert Neutrals(fields) == [Neutral(fields[0])];
    } else {
      var whole := r.(mode := Closing, field := Neutral(fields[0]));
      var rest: Fields := fields[1..];
      FirstCell(fields);
      FirstNeutral(fields);
      ReadComma(r, Cell(fields[0]), whole, Join(Cells(rest)));
      ReadCells(whole.EndField(), rest);
      HoldsMore(r.Read(Join(Cells(fields))), r, whole, Closing, Neutrals(rest));
    }
  }

  lemma ReadBreak(r: Reader)
    requires r.mode == Closing
    ensures r.Read("\r\n") == r.EndRecord()
  {
    assert "\r\n" == ['\r'] + ['\n'];
    ReadConcat(r, ['\r'], ['\n']);
    ReadOne(r, '\r');
    ReadOne(r.To(Return), '\n');
  }

  predicate AtRecord(r: Reader) { r.mode == Start && r.field == "" && r.record == [] }

  lemma ReadLine(r: Reader, fields: Fields)
    requires AtRecord(r)
    ensures r.Read(Line(fields)) == r.(records := r.records + [Neutrals(fields)])
  {
    ReadConcat(r, Join(Cells(fields)), "\r\n");
    ReadCells(r, fields);
    ReadBreak(r.Read(Join(Cells(fields))));
    assert r.record + Neutrals(fields) == Neutrals(fields);
  }

  lemma ReadLastLine(r: Reader, read: Reader, rows: seq<Fields>)
    requires AtRecord(r) && rows != []
    requires read == r.(records := r.records + AllNeutral(rows[..|rows| - 1]))
    ensures read.Read(Line(rows[|rows| - 1])) == r.(records := r.records + AllNeutral(rows))
  {
    ReadLine(read, rows[|rows| - 1]);
    assert read.records + [Neutrals(rows[|rows| - 1])] == r.records + AllNeutral(rows);
  }

  lemma {:induction false} ReadLines(r: Reader, rows: seq<Fields>)
    requires AtRecord(r)
    ensures r.Read(Lines(rows)) == r.(records := r.records + AllNeutral(rows))
    decreases |rows|
  {
    if rows == [] {
      assert r.records + AllNeutral(rows) == r.records;
    } else {
      var before := rows[..|rows| - 1];
      ReadConcat(r, Lines(before), Line(rows[|rows| - 1]));
      ReadLines(r, before);
      ReadLastLine(r, r.(records := r.records + AllNeutral(before)), rows);
    }
  }

  /** A reader that keeps to RFC 4180, and one that also takes bare line feeds, recover from the rows exactly
    * the harmless form of every field, whatever commas, quotes and line breaks the fields hold. */
  lemma RowsReadBack(rows: seq<Fields>, bareFeeds: bool)
    ensures Parse(Lines(rows), bareFeeds) == Sums.Some(AllNeutral(rows))
  {
    var r := Reader(bareFeeds, Start, "", [], []);
    ReadLines(r, rows);
    assert r.records + AllNeutral(rows) == AllNeutral(rows);
  }

  lemma NoRecoveredFormula(rows: seq<Fields>, i: nat, j: nat)
    requires i < |rows| && j < |rows[i]|
    ensures |AllNeutral(rows)[i]| == |rows[i]| && !Hazardous(AllNeutral(rows)[i][j])
  {
    CellsAreHarmless(rows[i][j]);
  }

  // ---- The header line ----

  predicate Plain(s: string) {
    s != [] && forall i :: 0 <= i < |s| ==> s[i] != '"' && s[i] != ',' && s[i] != '\r' && s[i] != '\n'
  }

  predicate AllPlain(names: seq<string>) { forall i :: 0 <= i < |names| ==> Plain(names[i]) }

  lemma {:induction false} ReadPlain(r: Reader, name: string)
    requires (r.mode == Start || r.mode == Bare) && Plain(name)
    ensures r.Read(name) == r.(mode := Bare, field := r.field + name)
    decreases |name|
  {
    if |name| == 1 {
      assert name == [name[0]];
      ReadOne(r, name[0]);
    } else {
      ReadPlain(r.Keep(name[0], Bare), name[1..]);
      assert r.field + [name[0]] + name[1..] == r.field + name;
    }
  }

  lemma {:induction false} ReadNames(r: Reader, names: Fields)
    requires r.mode == Start && r.field == ""
    requires AllPlain(names)
    ensures Holds(r.Read(Join(names)), r, Bare, names)
    decreases |names|
  {
    ReadPlain(r, names[0]);
    assert "" + names[0] == names[0];
    if |names| == 1 {
      assert names == [names[0]];
    } else {
      var whole := r.(mode := Bare, field := names[0]);
      var rest: Fields := names[1..];
      ReadComma(r, names[0], whole, Join(rest));
      ReadNames(whole.EndField(), rest);
      HoldsMore(r.Read(Join(names)), r, whole, Bare, rest);
      assert names == [names[0]] + rest;
    }
  }

  lemma {:induction false} StaysMalformed(r: Reader, text: string)
    requires r.mode == Malformed
    ensures r.Read(text) == r
    decreases |text|
  {
    if text != [] {
      StaysMalformed(r, text[1..]);
    }
  }

  lemma ReadNameLine(r: Reader, names: Fields)
    requires AtRecord(r) && AllPlain(names)
    ensures var got := r.Read(Join(names) + "\n");
            if r.bareFeeds then got == r.(records := r.records + [names]) else got.mode == Malformed
  {
    ReadConcat(r, Join(names), "\n");
    ReadNames(r, names);
    ReadOne(r.Read(Join(names)), '\n');
    assert r.record + names == names;
  }

  /** The file under any line of plain column names, not only the program's. */
  lemma NamedFileReadsBack(names: Fields, rows: seq<Fields>, bareFeeds: bool)
    requires AllPlain(names)
    ensures Parse(Join(names) + "\n" + Lines(rows), bareFeeds) ==
            if bareFeeds then Sums.Some([names] + AllNeutral(rows)) else Sums.None
  {
    var r := Reader(bareFeeds, Start, "", [], []);
    var header := Join(names) + "\n";
    ReadConcat(r, header, Lines(rows));
    ReadNameLine(r, names);
    if bareFeeds {
      assert r.records + [names] == [names];
      ReadLines(r.Read(header), rows);
    } else {
      StaysMalformed(r.Read(header), Lines(rows));
    }
  }

  lemma InvoiceColumnsArePlain()
    ensures AllPlain(INVOICE_COLUMNS)
  {
  }

  lemma PriceColumnsArePlain()
    ensures AllPlain(PRICE_COLUMNS)
  {
  }

  lemma ConfirmedColumnsArePlain()
    ensures AllPlain(CONFIRMED_COLUMNS)
  {
  }

  lemma StateColumnsArePlain()
    ensures AllPlain(STATE_COLUMNS)
  {
  }

  lemma PlainTogether(a: seq<string>, b: seq<string>)
    requires AllPlain(a) && AllPlain(b)
    ensures AllPlain(a + b)
  {
  }

  /** The whole file, header included, reads back only with a reader that takes the header's bare line feed. */
  lemma FileReadsBack(rows: seq<Fields>, bareFeeds: bool)
    ensures Parse(Header() + Lines(rows), bareFeeds) ==
            if bareFeeds then Sums.Some([COLUMNS] + AllNeutral(rows)) else Sums.None
  {
    InvoiceColumnsArePlain();
    PriceColumnsArePlain();
    ConfirmedColumnsArePlain();
    StateColumnsArePlain();
    PlainTogether(INVOICE_COLUMNS, PRICE_COLUMNS);
    PlainTogether(INVOICE_COLUMNS + PRICE_COLUMNS, CONFIRMED_COLUMNS);
    PlainTogether(INVOICE_COLUMNS + PRICE_COLUMNS + CONFIRMED_COLUMNS, STATE_COLUMNS);
    NamedFileReadsBack(COLUMNS, rows, bareFeeds);
  }
}
