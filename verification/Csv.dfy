/**
 The CSV writer of `scripts/export-system-agents.ts` and the character-level reader of
 `scripts/import-system-agents.ts`.  The reader is proved to read back every encoding
 that section 2 of RFC 4180 allows of a table: any cell may be quoted, a line may end in
 LF or CRLF.  The writer's output is one of them.
 */
module Csv {
  import opened Wrappers
  import opened Text

  type Row = seq<string>

  // ------------------------------------------------------------------ writer

  /** `null` and `undefined` are written as the empty text. */
  function FieldText(v: Option<string>): string { if v.Some? then v.value else "" }

  predicate NeedsQuotes(s: string) { '"' in s || ',' in s || '\n' in s || '\r' in s }

  /** `replace(/"/g, '""')`. */
  function DoubleQuotes(s: string): string {
    if s == [] then [] else (if s[0] == '"' then ['"', '"'] else [s[0]]) + DoubleQuotes(s[1..])
  }

  function Quote(s: string): string { ['"'] + DoubleQuotes(s) + ['"'] }

  function EscapeField(v: Option<string>): string {
    if NeedsQuotes(FieldText(v)) then Quote(FieldText(v)) else FieldText(v)
  }

  /** Every quote doubled: the parts between the quotes, joined by two. */
  lemma {:induction false} DoubleQuotesMeaning(s: string)
    ensures DoubleQuotes(s) == Join(Split(s, '"'), ['"', '"'])
    decreases |s|
  {
    var i := Find(s, '"');
    DoubleQuotesFrom(s[..i], s[i..]);
    assert s == s[..i] + s[i..];
    if i < |s| {
      DoubleQuotesMeaning(s[i + 1..]);
      assert s[i..][1..] == s[i + 1..];
      JoinHead(Split(s, '"'), ['"', '"']);
      assert Split(s, '"')[1..] == Split(s[i + 1..], '"');
    } else {
      assert Split(s, '"') == [s] && s[i..] == [];
    }
  }

  lemma {:induction false} DoubleQuotesFrom(plain: string, rest: string)
    requires '"' !in plain
    ensures DoubleQuotes(plain + rest) == plain + DoubleQuotes(rest)
  {
    if plain == [] {
      assert plain + rest == rest;
    } else {
      assert (plain + rest)[1..] == plain[1..] + rest;
      DoubleQuotesFrom(plain[1..], rest);
    }
  }

  /** A missing value is written as nothing; a value is quoted exactly when it holds `"`, `,`, LF or CR. */
  lemma EscapeMeaning(s: string)
    ensures EscapeField(None) == ""
    ensures EscapeField(Some(s)) ==
            if exists c :: c in s && c in {'"', ',', '\n', '\r'}
            then ['"'] + Join(Split(s, '"'), ['"', '"']) + ['"'] else s
  {
    DoubleQuotesMeaning(s);
  }

  function EscapeAll(fields: seq<Option<string>>): seq<string> {
    if fields == [] then [] else [EscapeField(fields[0])] + EscapeAll(fields[1..])
  }

  function ToCsvRow(fields: seq<Option<string>>): string { Join(EscapeAll(fields), ",") }

  function CsvRows(table: seq<seq<Option<string>>>): seq<string> {
    if table == [] then [] else [ToCsvRow(table[0])] + CsvRows(table[1..])
  }

  /** The exported text: a line per row, joined by LF, and a final LF. */
  function ExportText(table: seq<seq<Option<string>>>): string { Join(CsvRows(table), "\n") + "\n" }

  /** The export loop: the header line first, then one line per agent. */
  method Export(headers: seq<string>, agents: seq<seq<Option<string>>>) returns (text: string)
    ensures text == ExportText([Present(headers)] + agents)
  {
    var lines := [ToCsvRow(Present(headers))];
    var table := [Present(headers)];
    for i := 0 to |agents|
      invariant table == [Present(headers)] + agents[..i]
      invariant lines == CsvRows(table)
    {
      CsvRowsAppend(table, agents[i]);
      lines := lines + [ToCsvRow(agents[i])];
      table := table + [agents[i]];
    }
    assert agents[..|agents|] == agents;
    text := Join(lines, "\n") + "\n";
  }

  function Present(ss: seq<string>): seq<Option<string>> { seq(|ss|, i requires 0 <= i < |ss| => Some(ss[i])) }

  lemma {:induction false} CsvRowsAppend(table: seq<seq<Option<string>>>, r: seq<Option<string>>)
    ensures CsvRows(table + [r]) == CsvRows(table) + [ToCsvRow(r)]
  {
    if table == [] {
      assert [] + [r] == [r] && CsvRows([r]) == [ToCsvRow(r)] + CsvRows([]);
    } else {
      assert (table + [r])[1..] == table[1..] + [r];
      CsvRowsAppend(table[1..], r);
    }
  }

  /** The texts a table of values stands for. */
  function RowTexts(r: seq<Option<string>>): Row {
    if r == [] then [] else [FieldText(r[0])] + RowTexts(r[1..])
  }

  function TableTexts(t: seq<seq<Option<string>>>): seq<Row> {
    if t == [] then [] else [RowTexts(t[0])] + TableTexts(t[1..])
  }

  // ------------------------------------------------------------------ reader

  /** The variables of the character loop. */
  datatype Scan = Scan(rows: seq<Row>, row: Row, field: string, inQuotes: bool)

  const START := Scan([], [], [], false)

  function EndField(st: Scan): Scan { st.(row := st.row + [st.field], field := []) }

  function EndRow(st: Scan): Scan { Scan(st.rows + [st.row + [st.field]], [], [], st.inQuotes) }

  function Keep(st: Scan, c: char): Scan { st.(field := st.field + [c]) }

  /** How many characters one pass of the loop consumes, and what it does. */
  function Width(s: string, st: Scan): (n: nat)
    requires s != []
    ensures 1 <= n <= |s|
  {
    if st.inQuotes then (if |s| >= 2 && s[0] == '"' && s[1] == '"' then 2 else 1)
    else if |s| >= 2 && s[0] == '\r' && s[1] == '\n' then 2
    else 1
  }

  function Pass(s: string, st: Scan): Scan
    requires s != []
  {
    if st.inQuotes then
      if |s| >= 2 && s[0] == '"' && s[1] == '"' then Keep(st, '"')
      else if s[0] == '"' then st.(inQuotes := false)
      else Keep(st, s[0])
    else
      if s[0] == '"' then st.(inQuotes := true)
      else if s[0] == ',' then EndField(st)
      else if |s| >= 2 && s[0] == '\r' && s[1] == '\n' then EndRow(st)
      else if s[0] == '\n' then EndRow(st)
      else Keep(st, s[0])
  }

  function ScanText(s: string, st: Scan): Scan
    decreases |s|
  {
    if s == [] then st else ScanText(s[Width(s, st)..], Pass(s, st))
  }

  /** The last-row rule. */
  function Close(st: Scan): seq<Row> {
    if st.field != [] || st.row != [] then
      var row := st.row + [st.field];
      if exists f :: f in row && f != [] then st.rows + [row] else st.rows
    else st.rows
  }

  function RawRows(text: string): seq<Row> { Close(ScanText(text, START)) }

  function TrimAll(r: Row): Row { seq(|r|, i requires 0 <= i < |r| => Trim(r[i])) }

  function CellAt(cols: Row, i: nat): string { if i < |cols| then cols[i] else "" }

  /** The cells under the headers, missing cells as the empty text; a later equal header wins. */
  function RecordOn(headers: Row, cols: Row): map<string, string> {
    if headers == [] then map[]
    else
      var n := |headers| - 1;
      RecordOn(headers[..n], cols)[headers[n] := CellAt(cols, n)]
  }

  /** A row as a record: the trimmed cells under the trimmed headers. */
  function RecordOf(headers: Row, cols: Row): map<string, string> { RecordOn(TrimAll(headers), TrimAll(cols)) }

  function RecordsOf(headers: Row, rows: seq<Row>): seq<map<string, string>> {
    if rows == [] then []
    else RecordsOf(headers, rows[..|rows| - 1]) + [RecordOf(headers, rows[|rows| - 1])]
  }

  function Records(rows: seq<Row>): seq<map<string, string>> {
    if |rows| < 2 then [] else RecordsOf(rows[0], rows[1..])
  }

  /** The character loop, in place. */
  method ScanRaw(raw: string) returns (rows: seq<Row>, row: Row, field: string, inQuotes: bool)
    ensures Scan(rows, row, field, inQuotes) == ScanText(raw, START)
  {
    rows, row, field, inQuotes := [], [], [], false;
    var i := 0;
    while i < |raw|
      invariant 0 <= i <= |raw|
      invariant ScanText(raw[i..], Scan(rows, row, field, inQuotes)) == ScanText(raw, START)
      decreases |raw| - i
    {
      var ch := raw[i];
      var quoteNext := i + 1 < |raw| && raw[i + 1] == '"';
      var lfNext := i + 1 < |raw| && raw[i + 1] == '\n';
      ghost var s, st, at := raw[i..], Scan(rows, row, field, inQuotes), i;
      if inQuotes {
        if ch == '"' && quoteNext {
          field := field + ['"'];
          i := i + 2;
        } else if ch == '"' {
          inQuotes := false;
          i := i + 1;
        } else {
          field := field + [ch];
          i := i + 1;
        }
      } else {
        if ch == '"' {
          inQuotes := true;
          i := i + 1;
        } else if ch == ',' {
          row, field := row + [field], [];
          i := i + 1;
        } else if ch == '\r' && lfNext {
          rows, row, field := rows + [row + [field]], [], [];
          i := i + 2;
        } else if ch == '\n' {
          rows, row, field := rows + [row + [field]], [], [];
          i := i + 1;
        } else {
          field := field + [ch];
          i := i + 1;
        }
      }
      assert i == at + Width(s, st) && Scan(rows, row, field, inQuotes) == Pass(s, st);
      assert s[Width(s, st)..] == raw[i..];
    }
  }

  /** The record of one row: a header loop that overwrites. */
  lemma RecordOneMore(headers: Row, cols: Row, i: nat)
    requires i < |headers|
    ensures RecordOn(headers[..i + 1], cols) == RecordOn(headers[..i], cols)[headers[i] := CellAt(cols, i)]
  {
    assert headers[..i + 1][..i] == headers[..i];
  }

  method BuildRecord(headers: Row, cols: Row) returns (obj: map<string, string>)
    ensures obj == RecordOf(headers, cols)
  {
    obj := map[];
    ghost var hs := TrimAll(headers);
    for idx := 0 to |headers|
      invariant obj == RecordOn(hs[..idx], TrimAll(cols))
    {
      RecordOneMore(hs, TrimAll(cols), idx);
      var cell := if idx < |cols| then cols[idx] else "";
      assert Trim(cell) == CellAt(TrimAll(cols), idx);
      obj := obj[Trim(headers[idx]) := Trim(cell)];
    }
    assert hs[..|hs|] == hs;
  }

  method BuildRecords(headers: Row, rows: seq<Row>) returns (records: seq<map<string, string>>)
    ensures records == RecordsOf(headers, rows)
  {
    records := [];
    for k := 0 to |rows|
      invariant records == RecordsOf(headers, rows[..k])
    {
      var obj := BuildRecord(headers, rows[k]);
      assert rows[..k + 1][..k] == rows[..k];
      records := records + [obj];
    }
    assert rows[..|rows|] == rows;
  }

  method ParseCsv(raw: string) returns (records: seq<map<string, string>>)
    ensures records == Records(RawRows(raw))
  {
    var rows, row, field, inQuotes := ScanRaw(raw);
    if field != [] || row != [] {
      row := row + [field];
      if exists f :: f in row && f != [] {
        rows := rows + [row];
      }
    }
    if |rows| < 2 { return []; }
    records := BuildRecords(rows[0], rows[1..]);
  }

  // ------------------------------------------------------------------ every RFC 4180 encoding is read back

  datatype Piece = Piece(text: string, quoted: bool)

  /** The reader lets quotes start and stop anywhere in a cell. */
  type Cell = seq<Piece>

  datatype Line = Line(cells: seq<Cell>, crlf: bool)

  /** Outside quotes a carriage return is a character like others unless a line feed follows. */
  predicate LegalPiece(p: Piece) { p.quoted || (p.text != [] && Unquoted(p.text)) }

  predicate Unquoted(s: string) { '"' !in s && ',' !in s && '\n' !in s }

  /** Two quoted pieces in a row would read as one with a quote in it. */
  predicate LegalCell(c: Cell) {
    && (forall i :: 0 <= i < |c| ==> LegalPiece(c[i]))
    && (forall i :: 0 < i < |c| ==> !c[i - 1].quoted || !c[i].quoted)
  }

  predicate EndsInCr(c: Cell) {
    c != [] && !c[|c| - 1].quoted && c[|c| - 1].text != [] && c[|c| - 1].text[|c[|c| - 1].text| - 1] == '\r'
  }

  predicate EndsQuoted(c: Cell) { c != [] && c[|c| - 1].quoted }

  predicate LegalLine(l: Line) {
    && l.cells != [] && (forall c :: c in l.cells ==> LegalCell(c))
    && (l.crlf || !EndsInCr(l.cells[|l.cells| - 1]))
  }

  function EncodePiece(p: Piece): string { if p.quoted then Quote(p.text) else p.text }

  function EncodeCell(c: Cell): string {
    if c == [] then [] else EncodePiece(c[0]) + EncodeCell(c[1..])
  }

  function CellText(c: Cell): string {
    if c == [] then [] else c[0].text + CellText(c[1..])
  }

  function EncodeCells(cs: seq<Cell>): string
    requires cs != []
  {
    if |cs| == 1 then EncodeCell(cs[0]) else EncodeCell(cs[0]) + [','] + EncodeCells(cs[1..])
  }

  function LineEnd(l: Line): string { if l.crlf then ['\r', '\n'] else ['\n'] }

  function EncodeLines(ls: seq<Line>): string
    requires forall l :: l in ls ==> LegalLine(l)
  {
    if ls == [] then []
    else
      assert LegalLine(ls[0]);
      EncodeCells(ls[0].cells) + LineEnd(ls[0]) + EncodeLines(ls[1..])
  }

  function CellTexts(cs: seq<Cell>): Row {
    if cs == [] then [] else [CellText(cs[0])] + CellTexts(cs[1..])
  }

  function LineTexts(ls: seq<Line>): seq<Row> {
    if ls == [] then [] else [CellTexts(ls[0].cells)] + LineTexts(ls[1..])
  }

  lemma ScanOne(s: string, st: Scan)
    requires s != []
    ensures ScanText(s, st) == ScanText(s[Width(s, st)..], Pass(s, st))
  {
  }

  lemma {:induction false} ScanPlain(f: string, rest: string, st: Scan)
    requires Unquoted(f) && !st.inQuotes
    requires f != [] && f[|f| - 1] == '\r' && rest != [] ==> rest[0] != '\n'
    ensures ScanText(f + rest, st) == ScanText(rest, st.(field := st.field + f))
  {
    if f == [] {
      assert f + rest == rest && st.field + f == st.field;
    } else {
      PlainWidth(f, rest);
      ScanOne(f + rest, st);
      ScanPlain(f[1..], rest, Keep(st, f[0]));
      Concat(st.field, [f[0]], f[1..]);
      assert [f[0]] + f[1..] == f;
    }
  }

  /** No carriage return of the piece meets a line feed. */
  lemma PlainWidth(f: string, rest: string)
    requires f != [] && Unquoted(f)
    requires f[|f| - 1] == '\r' && rest != [] ==> rest[0] != '\n'
    ensures |f + rest| >= 2 && (f + rest)[0] == '\r' ==> (f + rest)[1] != '\n'
    ensures Unquoted(f[1..]) && (f + rest)[0] == f[0] && (f + rest)[1..] == f[1..] + rest
  {
    if |f| > 1 { assert (f + rest)[1] == f[1] && f[1] in f; }
  }

  /** Inside quotes, up to and with the closing quote. */
  lemma {:induction false} ScanQuoted(f: string, rest: string, st: Scan)
    requires st.inQuotes && (rest == [] || rest[0] != '"')
    ensures ScanText(DoubleQuotes(f) + ['"'] + rest, st)
            == ScanText(rest, st.(field := st.field + f, inQuotes := false))
    decreases |f|
  {
    if f == [] {
      ScanClosingQuote(rest, st);
      assert DoubleQuotes(f) + ['"'] + rest == ['"'] + rest && st.field + f == st.field;
    } else {
      ScanQuotedHead(f, rest, st);
      ScanQuoted(f[1..], rest, Keep(st, f[0]));
      KeepRest(f, st);
    }
  }

  lemma ScanClosingQuote(rest: string, st: Scan)
    requires st.inQuotes && (rest == [] || rest[0] != '"')
    ensures ScanText(['"'] + rest, st) == ScanText(rest, st.(inQuotes := false))
  {
    ScanOne(['"'] + rest, st);
    assert (['"'] + rest)[1..] == rest;
  }

  lemma KeepRest(f: string, st: Scan)
    requires f != []
    ensures Keep(st, f[0]).(field := Keep(st, f[0]).field + f[1..], inQuotes := false)
            == st.(field := st.field + f, inQuotes := false)
  {
    assert st.field + [f[0]] + f[1..] == st.field + f;
  }

  lemma ScanQuotedHead(f: string, rest: string, st: Scan)
    requires st.inQuotes && f != []
    ensures ScanText(DoubleQuotes(f) + ['"'] + rest, st)
            == ScanText(DoubleQuotes(f[1..]) + ['"'] + rest, Keep(st, f[0]))
  {
    DoubleQuotesHead(f, rest);
    ScanQuotedChar(f[0], DoubleQuotes(f[1..]) + ['"'] + rest, st);
  }

  lemma DoubleQuotesHead(f: string, rest: string)
    requires f != []
    ensures DoubleQuotes(f) + ['"'] + rest
            == (if f[0] == '"' then ['"', '"'] else [f[0]]) + (DoubleQuotes(f[1..]) + ['"'] + rest)
  {
  }

  lemma ScanQuotedChar(c: char, rest: string, st: Scan)
    requires st.inQuotes
    ensures ScanText((if c == '"' then ['"', '"'] else [c]) + rest, st) == ScanText(rest, Keep(st, c))
  {
  }

  lemma QuoteSplits(text: string, rest: string)
    ensures Quote(text) + rest == ['"'] + (DoubleQuotes(text) + ['"'] + rest)
  {
  }

  lemma ScanPiece(p: Piece, rest: string, st: Scan)
    requires LegalPiece(p) && !st.inQuotes
    requires p.quoted && rest != [] ==> rest[0] != '"'
    requires EndsInCr([p]) && rest != [] ==> rest[0] != '\n'
    ensures ScanText(EncodePiece(p) + rest, st) == ScanText(rest, st.(field := st.field + p.text))
  {
    if p.quoted {
      var s := ['"'] + (DoubleQuotes(p.text) + ['"'] + rest);
      QuoteSplits(p.text, rest);
      ScanOne(s, st);
      assert s[1..] == DoubleQuotes(p.text) + ['"'] + rest;
      ScanQuoted(p.text, rest, st.(inQuotes := true));
    } else {
      ScanPlain(p.text, rest, st);
    }
  }

  /** What may follow a cell. */
  predicate Follows(rest: string, c: Cell) {
    rest != [] ==> (EndsQuoted(c) ==> rest[0] != '"') && (EndsInCr(c) ==> rest[0] != '\n')
  }

  lemma {:induction false} ScanCell(c: Cell, rest: string, st: Scan)
    requires LegalCell(c) && !st.inQuotes && Follows(rest, c)
    ensures ScanText(EncodeCell(c) + rest, st) == ScanText(rest, st.(field := st.field + CellText(c)))
    decreases |c|
  {
    if c == [] {
      assert EncodeCell(c) + rest == rest && st.field + CellText(c) == st.field;
    } else {
      PieceThenRest(c, rest);
      CellSplits(c, rest, st.field);
      ScanPiece(c[0], EncodeCell(c[1..]) + rest, st);
      ScanCell(c[1..], rest, st.(field := st.field + c[0].text));
    }
  }

  lemma CellSplits(c: Cell, rest: string, field: string)
    requires c != []
    ensures EncodeCell(c) + rest == EncodePiece(c[0]) + (EncodeCell(c[1..]) + rest)
    ensures field + CellText(c) == field + c[0].text + CellText(c[1..])
  {
    Concat(EncodePiece(c[0]), EncodeCell(c[1..]), rest);
    Concat(field, c[0].text, CellText(c[1..]));
  }

  lemma PieceThenRest(c: Cell, rest: string)
    requires c != [] && LegalCell(c) && Follows(rest, c)
    ensures var tail := EncodeCell(c[1..]) + rest;
      tail != [] ==> (c[0].quoted ==> tail[0] != '"') && (EndsInCr([c[0]]) ==> tail[0] != '\n')
    ensures LegalCell(c[1..]) && Follows(rest, c[1..])
  {
    if |c| > 1 {
      assert LegalPiece(c[1]) && EncodePiece(c[1]) != [];
      assert (EncodeCell(c[1..]) + rest)[0] == EncodePiece(c[1])[0];
      if !c[1].quoted { assert c[1].text[0] in c[1].text; }
    } else {
      assert c[1..] == [] && c == [c[0]];
    }
  }

  /** Where the loop stands after the cells of a line: the last one is still in the field. */
  function AfterCells(cs: seq<Cell>, st: Scan): Scan
    requires cs != []
  {
    var st1 := st.(field := CellText(cs[0]));
    if |cs| == 1 then st1 else AfterCells(cs[1..], EndField(st1))
  }

  lemma {:induction false} AfterCellsMeaning(cs: seq<Cell>, st: Scan)
    requires cs != []
    ensures var end := AfterCells(cs, st);
      end.row + [end.field] == st.row + CellTexts(cs) && end.rows == st.rows && end.inQuotes == st.inQuotes
  {
    if |cs| > 1 {
      AfterCellsMeaning(cs[1..], EndField(st.(field := CellText(cs[0]))));
      Concat(st.row, [CellText(cs[0])], CellTexts(cs[1..]));
    } else {
      assert CellTexts(cs) == [CellText(cs[0])];
    }
  }

  lemma {:induction false} ScanCells(cs: seq<Cell>, rest: string, st: Scan)
    requires cs != [] && forall c :: c in cs ==> LegalCell(c)
    requires !st.inQuotes && st.field == [] && Follows(rest, cs[|cs| - 1])
    ensures ScanText(EncodeCells(cs) + rest, st) == ScanText(rest, AfterCells(cs, st))
    decreases |cs|
  {
    assert cs[0] in cs;
    if |cs| == 1 {
      ScanCell(cs[0], rest, st);
      assert st.field + CellText(cs[0]) == CellText(cs[0]);
    } else {
      ScanCellAndComma(cs, rest, st);
      ScanCells(cs[1..], rest, EndField(st.(field := CellText(cs[0]))));
    }
  }

  lemma ScanCellAndComma(cs: seq<Cell>, rest: string, st: Scan)
    requires |cs| > 1 && LegalCell(cs[0]) && !st.inQuotes && st.field == []
    ensures ScanText(EncodeCells(cs) + rest, st)
            == ScanText(EncodeCells(cs[1..]) + rest, EndField(st.(field := CellText(cs[0]))))
  {
    var tail := [','] + (EncodeCells(cs[1..]) + rest);
    assert EncodeCells(cs) + rest == EncodeCell(cs[0]) + tail;
    ScanCell(cs[0], tail, st);
    assert st.field + CellText(cs[0]) == CellText(cs[0]);
    ScanComma(EncodeCells(cs[1..]) + rest, st.(field := CellText(cs[0])));
  }

  lemma ScanComma(rest: string, st: Scan)
    requires !st.inQuotes
    ensures ScanText([','] + rest, st) == ScanText(rest, EndField(st))
  {
  }

  lemma ScanLine(l: Line, rest: string, rows: seq<Row>)
    requires LegalLine(l)
    ensures ScanText(EncodeCells(l.cells) + LineEnd(l) + rest, Scan(rows, [], [], false))
            == ScanText(rest, Scan(rows + [CellTexts(l.cells)], [], [], false))
  {
    var st := Scan(rows, [], [], false);
    var tail := LineEnd(l) + rest;
    assert EncodeCells(l.cells) + LineEnd(l) + rest == EncodeCells(l.cells) + tail;
    ScanCells(l.cells, tail, st);
    AfterCellsMeaning(l.cells, st);
    ScanOne(tail, AfterCells(l.cells, st));
    assert tail[|LineEnd(l)|..] == rest;
    assert [] + CellTexts(l.cells) == CellTexts(l.cells);
  }

  lemma EncodeHead(ls: seq<Line>, rest: string)
    requires ls != [] && forall l :: l in ls ==> LegalLine(l)
    ensures LegalLine(ls[0]) && forall l :: l in ls[1..] ==> LegalLine(l)
    ensures EncodeLines(ls) + rest == EncodeCells(ls[0].cells) + LineEnd(ls[0]) + (EncodeLines(ls[1..]) + rest)
  {
  }

  lemma {:induction false} ScanLines(ls: seq<Line>, rest: string, rows: seq<Row>)
    requires forall l :: l in ls ==> LegalLine(l)
    ensures ScanText(EncodeLines(ls) + rest, Scan(rows, [], [], false))
            == ScanText(rest, Scan(rows + LineTexts(ls), [], [], false))
    decreases |ls|
  {
    if ls == [] {
      assert [] + rest == rest && rows + [] == rows;
    } else {
      EncodeHead(ls, rest);
      ScanLine(ls[0], EncodeLines(ls[1..]) + rest, rows);
      ScanLines(ls[1..], rest, rows + [CellTexts(ls[0].cells)]);
      LineTextsHead(ls, rows);
    }
  }

  lemma LineTextsHead(ls: seq<Line>, rows: seq<Row>)
    requires ls != []
    ensures rows + [CellTexts(ls[0].cells)] + LineTexts(ls[1..]) == rows + LineTexts(ls)
  {
  }

  /** Section 2 of RFC 4180: whatever is quoted and however lines end, the rows come back exactly. */
  lemma ReadsEveryEncoding(ls: seq<Line>)
    requires forall l :: l in ls ==> LegalLine(l)
    ensures RawRows(EncodeLines(ls)) == LineTexts(ls)
  {
    ScanLines(ls, [], []);
    assert EncodeLines(ls) + [] == EncodeLines(ls);
    assert [] + LineTexts(ls) == LineTexts(ls);
  }

  /**
   The line end of the last line may be missing.  Then the last row comes back exactly
   when one of its cells is not empty; otherwise the reader drops it.
   */
  lemma LastLineWithoutEnd(ls: seq<Line>, last: seq<Cell>)
    requires forall l :: l in ls ==> LegalLine(l)
    requires last != [] && forall c :: c in last ==> LegalCell(c)
    ensures RawRows(EncodeLines(ls) + EncodeCells(last)) ==
            LineTexts(ls) + LastRow(CellTexts(last))
  {
    var st := Scan(LineTexts(ls), [], [], false);
    ScanLines(ls, EncodeCells(last), []);
    assert [] + LineTexts(ls) == LineTexts(ls);
    ScanLastCells(last, st);
    CloseCells(last, LineTexts(ls));
  }

  /** What the last row counts as, when its line has no end. */
  function LastRow(row: Row): seq<Row> { if exists f :: f in row && f != [] then [row] else [] }

  /** A quote that is never closed: the rest of the text belongs to the last cell. */
  lemma UnclosedQuote(ls: seq<Line>, last: seq<Cell>, f: string)
    requires forall l :: l in ls ==> LegalLine(l)
    requires last != [] && (forall c :: c in last ==> LegalCell(c)) && !EndsQuoted(last[|last| - 1])
    ensures var n := |last| - 1;
      |CellTexts(last)| == n + 1 &&
      RawRows(EncodeLines(ls) + (EncodeCells(last) + (['"'] + DoubleQuotes(f)))) ==
        LineTexts(ls) + LastRow(CellTexts(last)[..n] + [CellTexts(last)[n] + f])
  {
    ScanLines(ls, EncodeCells(last) + (['"'] + DoubleQuotes(f)), []);
    assert [] + LineTexts(ls) == LineTexts(ls);
    ScanUnclosed(last, f, LineTexts(ls));
  }

  lemma ScanUnclosed(last: seq<Cell>, f: string, rows: seq<Row>)
    requires last != [] && (forall c :: c in last ==> LegalCell(c)) && !EndsQuoted(last[|last| - 1])
    ensures var n := |last| - 1;
      |CellTexts(last)| == n + 1 &&
      ScanText(EncodeCells(last) + (['"'] + DoubleQuotes(f)), Scan(rows, [], [], false)) ==
        Scan(rows, CellTexts(last)[..n], CellTexts(last)[n] + f, true)
  {
    var st := Scan(rows, [], [], false);
    ScanCells(last, ['"'] + DoubleQuotes(f), st);
    LastCellOpen(last, rows);
    ScanTail(f, AfterCells(last, st));
  }

  /** Where the loop stands after the cells of the last line. */
  lemma LastCellOpen(last: seq<Cell>, rows: seq<Row>)
    requires last != []
    ensures var n := |last| - 1;
      |CellTexts(last)| == n + 1 &&
      AfterCells(last, Scan(rows, [], [], false)) == Scan(rows, CellTexts(last)[..n], CellTexts(last)[n], false)
  {
    AfterCellsMeaning(last, Scan(rows, [], [], false));
    CellTextsLength(last);
    var end := AfterCells(last, Scan(rows, [], [], false));
    assert end.row + [end.field] == CellTexts(last);
    assert end.row == (end.row + [end.field])[..|end.row|];
  }

  lemma ScanTail(f: string, st: Scan)
    requires !st.inQuotes
    ensures ScanText(['"'] + DoubleQuotes(f), st) == st.(field := st.field + f, inQuotes := true)
  {
    ScanOne(['"'] + DoubleQuotes(f), st);
    assert (['"'] + DoubleQuotes(f))[1..] == DoubleQuotes(f);
    ScanOpen(f, st.(inQuotes := true));
  }

  lemma {:induction false} CellTextsLength(cs: seq<Cell>)
    ensures |CellTexts(cs)| == |cs|
  {
    if cs != [] { CellTextsLength(cs[1..]); }
  }

  lemma {:induction false} ScanOpen(f: string, st: Scan)
    requires st.inQuotes
    ensures ScanText(DoubleQuotes(f), st) == st.(field := st.field + f)
    decreases |f|
  {
    if f == [] {
      assert st.field + f == st.field;
    } else {
      ScanQuotedChar(f[0], DoubleQuotes(f[1..]), st);
      ScanOpen(f[1..], Keep(st, f[0]));
      assert st.field + [f[0]] + f[1..] == st.field + f;
    }
  }

  lemma ScanLastCells(last: seq<Cell>, st: Scan)
    requires last != [] && forall c :: c in last ==> LegalCell(c)
    requires !st.inQuotes && st.field == []
    ensures ScanText(EncodeCells(last), st) == AfterCells(last, st)
  {
    ScanCells(last, [], st);
    assert EncodeCells(last) + [] == EncodeCells(last);
    assert ScanText([], AfterCells(last, st)) == AfterCells(last, st);
  }

  lemma CloseCells(last: seq<Cell>, rows: seq<Row>)
    requires last != []
    ensures Close(AfterCells(last, Scan(rows, [], [], false))) ==
            rows + LastRow(CellTexts(last))
  {
    var st := Scan(rows, [], [], false);
    AfterCellsMeaning(last, st);
    var end := AfterCells(last, st);
    assert end.row + [end.field] == [] + CellTexts(last) == CellTexts(last);
  }

  // ------------------------------------------------------------------ the writer's output

  function WriterCell(s: string): Cell {
    if NeedsQuotes(s) then [Piece(s, true)] else if s == [] then [] else [Piece(s, false)]
  }

  lemma WriterCellMeaning(s: string)
    ensures LegalCell(WriterCell(s)) && !EndsInCr(WriterCell(s))
    ensures CellText(WriterCell(s)) == s && EncodeCell(WriterCell(s)) == if NeedsQuotes(s) then Quote(s) else s
  {
    OnePiece(Piece(s, NeedsQuotes(s)));
  }

  lemma OnePiece(p: Piece)
    ensures EncodeCell([p]) == EncodePiece(p) && CellText([p]) == p.text
  {
    assert [p][1..] == [] && EncodeCell([]) == [] && CellText([]) == [];
    assert EncodePiece(p) + [] == EncodePiece(p);
  }

  /** A row as the writer encodes it, with the line end left open. */
  function WriterCells(r: seq<Option<string>>): seq<Cell> {
    if r == [] then [] else [WriterCell(FieldText(r[0]))] + WriterCells(r[1..])
  }

  function WriterLines(t: seq<seq<Option<string>>>, crlf: seq<bool>): seq<Line>
    requires |crlf| == |t|
  {
    if t == [] then [] else [Line(WriterCells(t[0]), crlf[0])] + WriterLines(t[1..], crlf[1..])
  }

  lemma {:induction false} WriterCellsMeaning(r: seq<Option<string>>)
    ensures forall c :: c in WriterCells(r) ==> LegalCell(c) && !EndsInCr(c)
    ensures |WriterCells(r)| == |r| && CellTexts(WriterCells(r)) == RowTexts(r)
    ensures r != [] ==> EncodeCells(WriterCells(r)) == ToCsvRow(r)
  {
    if r != [] {
      WriterCellMeaning(FieldText(r[0]));
      WriterCellsMeaning(r[1..]);
      assert WriterCells(r)[1..] == WriterCells(r[1..]);
      assert EscapeAll(r)[1..] == EscapeAll(r[1..]);
      assert |EscapeAll(r)| == |r| by { EscapeAllLength(r); }
    }
  }

  lemma {:induction false} EscapeAllLength(r: seq<Option<string>>)
    ensures |EscapeAll(r)| == |r|
  {
    if r != [] { EscapeAllLength(r[1..]); }
  }

  ghost predicate NoEmptyRow(t: seq<seq<Option<string>>>) { forall i :: 0 <= i < |t| ==> t[i] != [] }

  lemma {:induction false} WriterLinesMeaning(t: seq<seq<Option<string>>>, crlf: seq<bool>)
    requires |crlf| == |t| && NoEmptyRow(t)
    ensures forall l :: l in WriterLines(t, crlf) ==> LegalLine(l)
    ensures LineTexts(WriterLines(t, crlf)) == TableTexts(t)
  {
    if t != [] {
      assert t[0] in t;
      WriterCellsMeaning(t[0]);
      WriterLinesMeaning(t[1..], crlf[1..]);
    }
  }

  /** The writer's lines, each with the line end of one's choice. */
  function ExportWith(t: seq<seq<Option<string>>>, crlf: seq<bool>): string
    requires |crlf| == |t|
  {
    if t == [] then [] else ToCsvRow(t[0]) + (if crlf[0] then ['\r', '\n'] else ['\n']) + ExportWith(t[1..], crlf[1..])
  }

  lemma {:induction false} ExportWithIsEncoding(t: seq<seq<Option<string>>>, crlf: seq<bool>)
    requires |crlf| == |t| && NoEmptyRow(t)
    ensures var ls := WriterLines(t, crlf);
      (forall l :: l in ls ==> LegalLine(l)) && ExportWith(t, crlf) == EncodeLines(ls)
  {
    WriterLinesMeaning(t, crlf);
    if t != [] {
      assert t[0] in t;
      WriterCellsMeaning(t[0]);
      ExportWithIsEncoding(t[1..], crlf[1..]);
      assert WriterLines(t, crlf)[1..] == WriterLines(t[1..], crlf[1..]);
    }
  }

  function AllLf(n: nat): seq<bool> { seq(n, _ => false) }

  lemma {:induction false} ExportTextIsAllLf(t: seq<seq<Option<string>>>)
    requires t != []
    ensures ExportText(t) == ExportWith(t, AllLf(|t|))
  {
    var line, rest := ToCsvRow(t[0]), t[1..];
    assert AllLf(|t|)[1..] == AllLf(|rest|);
    assert ExportWith(t, AllLf(|t|)) == line + ['\n'] + ExportWith(rest, AllLf(|rest|));
    ExportTextHead(t);
    if rest != [] { ExportTextIsAllLf(rest); }
  }

  lemma ExportTextHead(t: seq<seq<Option<string>>>)
    requires t != []
    ensures ExportText(t) == ToCsvRow(t[0]) + ['\n'] + if |t| == 1 then [] else ExportText(t[1..])
  {
    var lines := CsvRows(t);
    assert lines[0] == ToCsvRow(t[0]) && lines[1..] == CsvRows(t[1..]);
    if |t| > 1 {
      assert Join(lines, "\n") == lines[0] + "\n" + Join(lines[1..], "\n");
    }
  }

  /** The line ends do not matter: each line of the export may be rewritten to end in CRLF. */
  lemma LineEndsDoNotMatter(t: seq<seq<Option<string>>>, crlf: seq<bool>)
    requires |crlf| == |t| && NoEmptyRow(t)
    ensures RawRows(ExportWith(t, crlf)) == TableTexts(t)
  {
    ExportWithIsEncoding(t, crlf);
    WriterLinesMeaning(t, crlf);
    ReadsEveryEncoding(WriterLines(t, crlf));
  }

  lemma {:induction false} TableTextsShape(t: seq<seq<Option<string>>>)
    ensures |TableTexts(t)| == |t|
    ensures forall i :: 0 <= i < |t| ==> TableTexts(t)[i] == RowTexts(t[i])
  {
    if t != [] { TableTextsShape(t[1..]); }
  }

  /**
   The round trip, exactly: the reader gives back the rows that were exported when there
   is at least one row and no row is without fields, and in no other case.
   */
  lemma ExportRoundTrip(t: seq<seq<Option<string>>>)
    ensures RawRows(ExportText(t)) == TableTexts(t) <==> t != [] && NoEmptyRow(t)
  {
    if t != [] && NoEmptyRow(t) {
      ExportTextIsAllLf(t);
      LineEndsDoNotMatter(t, AllLf(|t|));
    } else {
      NoRowIsEmpty(ExportText(t));
      TableTextsShape(t);
      if t == [] {
        assert ExportText(t) == ['\n'];
        ScanOne(['\n'], START);
        assert ['\n'][1..] == [];
        assert ScanText(['\n'], START) == EndRow(START);
        assert |RawRows(ExportText(t))| == 1;
      } else {
        var i :| 0 <= i < |t| && t[i] == [];
        assert TableTexts(t)[i] == [];
        assert TableTexts(t)[i] in TableTexts(t);
      }
    }
  }

  /** The reader never yields a row without fields. */
  lemma NoRowIsEmpty(text: string)
    ensures forall r :: r in RawRows(text) ==> r != []
  {
    ScanKeepsRows(text, START);
  }

  lemma {:induction false} ScanKeepsRows(s: string, st: Scan)
    requires forall r :: r in st.rows ==> r != []
    ensures forall r :: r in ScanText(s, st).rows ==> r != []
    decreases |s|
  {
    if s != [] { ScanKeepsRows(s[Width(s, st)..], Pass(s, st)); }
  }

  // ------------------------------------------------------------------ records

  /** No later header reads the same once trimmed. */
  ghost predicate LastOfItsName(headers: Row, i: nat) {
    i < |headers| && forall j :: i < j < |headers| ==> Trim(headers[j]) != Trim(headers[i])
  }

  /**
   A record, whatever the headers: its keys are the trimmed headers, and under each key is
   the trimmed cell of the last header of that name, or the empty text if the row is short.
   */
  lemma RecordOfMeaning(headers: Row, cols: Row)
    ensures forall k :: k in RecordOf(headers, cols) <==> exists i :: 0 <= i < |headers| && Trim(headers[i]) == k
    ensures forall i :: 0 <= i < |headers| && LastOfItsName(headers, i) ==>
              RecordOf(headers, cols)[Trim(headers[i])] == if i < |cols| then Trim(cols[i]) else ""
  {
    var hs, cs := TrimAll(headers), TrimAll(cols);
    RecordKeys(hs, cs);
    forall i | 0 <= i < |headers| && LastOfItsName(headers, i)
      ensures Trim(headers[i]) in RecordOn(hs, cs)
      ensures RecordOn(hs, cs)[Trim(headers[i])] == if i < |cols| then Trim(cols[i]) else ""
    {
      assert forall j :: i < j < |hs| ==> hs[j] == Trim(headers[j]);
      RecordLast(hs, cs, i);
      assert hs[i] == Trim(headers[i]);
    }
    forall i | 0 <= i < |headers| ensures hs[i] == Trim(headers[i]) && hs[i] in hs {}
  }

  lemma {:induction false} RecordLast(headers: Row, cols: Row, i: nat)
    requires i < |headers| && forall j :: i < j < |headers| ==> headers[j] != headers[i]
    ensures headers[i] in RecordOn(headers, cols) && RecordOn(headers, cols)[headers[i]] == CellAt(cols, i)
  {
    var n := |headers| - 1;
    if i < n { RecordLast(headers[..n], cols, i); }
  }

  /** The same texts up to blanks at their ends. */
  ghost predicate SamePadded(x: Row, y: Row) {
    |x| == |y| && forall i :: 0 <= i < |x| ==> exists a, b :: Between(x[i], a, y[i], b)
  }

  /** Blanks around a header or a cell never change a record. */
  lemma PaddingNeverMatters(headers: Row, cols: Row, headers': Row, cols': Row)
    requires SamePadded(headers', headers) && SamePadded(cols', cols)
    ensures RecordOf(headers', cols') == RecordOf(headers, cols)
  {
    TrimAllPadded(headers', headers);
    TrimAllPadded(cols', cols);
  }

  lemma TrimAllPadded(x: Row, y: Row)
    requires SamePadded(x, y)
    ensures TrimAll(x) == TrimAll(y)
  {
    forall i | 0 <= i < |x| ensures Trim(x[i]) == Trim(y[i]) {
      var a, b :| Between(x[i], a, y[i], b);
      TrimIgnoresPadding(a, y[i], b);
    }
  }

  lemma {:induction false} RecordKeys(headers: Row, cols: Row)
    ensures RecordOn(headers, cols).Keys == set h | h in headers
  {
    if headers != [] {
      var n := |headers| - 1;
      RecordKeys(headers[..n], cols);
      assert headers == headers[..n] + [headers[n]];
    }
  }

  lemma RecordMeaning(headers: Row, cols: Row)
    requires Distinct(headers)
    ensures RecordOn(headers, cols).Keys == set h | h in headers
    ensures forall i :: 0 <= i < |headers| ==> RecordOn(headers, cols)[headers[i]] == CellAt(cols, i)
  {
    RecordKeys(headers, cols);
    forall i | 0 <= i < |headers| ensures RecordOn(headers, cols)[headers[i]] == CellAt(cols, i) {
      RecordLast(headers, cols, i);
    }
  }

  lemma {:induction false} RecordsOfShape(headers: Row, rows: seq<Row>)
    ensures |RecordsOf(headers, rows)| == |rows|
    ensures forall i :: 0 <= i < |rows| ==> RecordsOf(headers, rows)[i] == RecordOf(headers, rows[i])
  {
    if rows != [] {
      var n := |rows| - 1;
      var front := RecordsOf(headers, rows[..n]);
      RecordsOfShape(headers, rows[..n]);
      assert RecordsOf(headers, rows) == front + [RecordOf(headers, rows[n])];
      forall i | 0 <= i < n ensures RecordsOf(headers, rows)[i] == RecordOf(headers, rows[i]) {
        assert front[i] == RecordOf(headers, rows[..n][i]);
      }
    }
  }

  /** The texts of a row: a missing value stands for the empty text. */
  lemma {:induction false} RowTextsShape(r: seq<Option<string>>)
    ensures |RowTexts(r)| == |r|
    ensures forall i :: 0 <= i < |r| ==> RowTexts(r)[i] == if r[i].Some? then r[i].value else ""
  {
    if r != [] { RowTextsShape(r[1..]); }
  }

  /** The record has the trimmed headers as keys, with the agent's trimmed values. */
  ghost predicate Imported(headers: Row, agent: seq<Option<string>>, r: map<string, string>)
    requires |agent| == |headers|
  {
    && |r| == |headers|
    && forall i :: 0 <= i < |headers| ==>
         Trim(headers[i]) in r && r[Trim(headers[i])] == if agent[i].Some? then Trim(agent[i].value) else ""
  }

  /** The record of one exported row. */
  lemma RecordOfRow(headers: Row, agent: seq<Option<string>>)
    requires Distinct(TrimAll(headers)) && |agent| == |headers|
    ensures Imported(headers, agent, RecordOf(headers, RowTexts(agent)))
  {
    RowTextsShape(agent);
    var hs := TrimAll(headers);
    RecordMeaning(hs, TrimAll(RowTexts(agent)));
    DistinctSetSize(hs);
    forall i | 0 <= i < |headers|
      ensures Trim(headers[i]) in RecordOf(headers, RowTexts(agent))
      ensures RecordOf(headers, RowTexts(agent))[Trim(headers[i])] ==
              if agent[i].Some? then Trim(agent[i].value) else ""
    {
      assert hs[i] == Trim(headers[i]) && hs[i] in hs;
    }
  }

  lemma {:induction false} DistinctSetSize(r: Row)
    requires Distinct(r)
    ensures |set h | h in r| == |r|
  {
    if r != [] {
      var n := |r| - 1;
      DistinctSetSize(r[..n]);
      assert (set h | h in r) == (set h | h in r[..n]) + {r[n]};
    }
  }

  /**
   Export, then import, with any choice of line ends: one record per agent, whose keys are
   the trimmed headers and whose values are the exported values, trimmed.
   */
  lemma ImportOfExport(headers: seq<string>, agents: seq<seq<Option<string>>>, crlf: seq<bool>)
    requires headers != [] && Distinct(TrimAll(headers))
    requires forall k :: 0 <= k < |agents| ==> |agents[k]| == |headers|
    requires |crlf| == 1 + |agents|
    ensures var records := Records(RawRows(ExportWith([Present(headers)] + agents, crlf)));
      |records| == |agents| && forall k :: 0 <= k < |agents| ==> Imported(headers, agents[k], records[k])
  {
    LineEndsDoNotMatter([Present(headers)] + agents, crlf);
    ExportedRows(headers, agents);
    var rows := TableTexts([Present(headers)] + agents);
    RecordsOfShape(headers, rows[1..]);
    forall k | 0 <= k < |agents| ensures Imported(headers, agents[k], RecordOf(headers, rows[1..][k])) {
      RecordOfRow(headers, agents[k]);
    }
  }

  lemma ExportedRows(headers: seq<string>, agents: seq<seq<Option<string>>>)
    ensures var rows := TableTexts([Present(headers)] + agents);
      && |rows| == 1 + |agents| && rows[0] == headers
      && forall k :: 0 <= k < |agents| ==> rows[1..][k] == RowTexts(agents[k])
  {
    var t := [Present(headers)] + agents;
    TableTextsShape(t);
    RowTextsShape(Present(headers));
    assert t[0] == Present(headers) && forall k :: 0 <= k < |agents| ==> t[k + 1] == agents[k];
  }
}
