/**
 Every text is what the laws of `Csv` speak about: lines of cells made of plain and quoted
 pieces, a last line without an end, and perhaps a quote that is never closed.  So the
 reader's rows are known for all texts.
 */
module CsvTexts {
  import opened Wrappers
  import opened Text
  import opened Csv

  /** The parts of a text: its complete lines, the cells after them, and what follows an open quote. */
  datatype Form = Form(lines: seq<Line>, last: seq<Cell>, open: Option<string>)

  ghost predicate LegalForm(x: Form) {
    && (forall l :: l in x.lines ==> LegalLine(l))
    && x.last != [] && (forall c :: c in x.last ==> LegalCell(c))
    && (x.open.Some? ==> !EndsQuoted(x.last[|x.last| - 1]))
  }

  ghost function FormText(x: Form): string
    requires LegalForm(x)
  {
    EncodeLines(x.lines) + (EncodeCells(x.last) + OpenText(x.open))
  }

  function OpenText(open: Option<string>): string {
    if open.Some? then ['"'] + DoubleQuotes(open.value) else []
  }

  /** The row of the last line, the open quote's text included. */
  function LastTexts(x: Form): Row
    requires x.last != []
  {
    var n := |x.last| - 1;
    CellTexts(x.last[..n]) + [CellText(x.last[n]) + if x.open.Some? then x.open.value else ""]
  }

  // ------------------------------------------------------------------ how a text grows at its end

  lemma {:induction false} CellGrows(c: Cell, p: Piece)
    ensures EncodeCell(c + [p]) == EncodeCell(c) + EncodePiece(p)
  {
    if c == [] {
      OnePiece(p);
      assert c + [p] == [p];
    } else {
      assert (c + [p])[1..] == c[1..] + [p];
      CellGrows(c[1..], p);
    }
  }

  lemma {:induction false} CellsGrow(cs: seq<Cell>, c: Cell)
    requires cs != []
    ensures EncodeCells(cs + [c]) == EncodeCells(cs) + [','] + EncodeCell(c)
  {
    assert (cs + [c])[1..] == cs[1..] + [c];
    if |cs| > 1 { CellsGrow(cs[1..], c); }
  }

  /** The last cell may be replaced by a longer one. */
  lemma {:induction false} LastCellGrows(cs: seq<Cell>, c: Cell, more: string)
    requires cs != [] && EncodeCell(c) == EncodeCell(cs[|cs| - 1]) + more
    ensures EncodeCells(cs[..|cs| - 1] + [c]) == EncodeCells(cs) + more
  {
    if |cs| == 1 {
      assert cs[..0] + [c] == [c];
    } else {
      assert (cs[..|cs| - 1] + [c])[1..] == cs[1..][..|cs| - 2] + [c];
      LastCellGrows(cs[1..], c, more);
    }
  }

  lemma {:induction false} LinesGrow(ls: seq<Line>, l: Line)
    requires LegalLine(l) && forall x :: x in ls ==> LegalLine(x)
    ensures EncodeLines(ls + [l]) == EncodeLines(ls) + (EncodeCells(l.cells) + LineEnd(l))
  {
    if ls == [] {
      assert ls + [l] == [l] && EncodeLines([l]) == EncodeCells(l.cells) + LineEnd(l) + EncodeLines([]);
    } else {
      assert (ls + [l])[1..] == ls[1..] + [l];
      LinesGrow(ls[1..], l);
    }
  }

  lemma {:induction false} QuotedGrows(f: string, c: char)
    ensures DoubleQuotes(f + [c]) == DoubleQuotes(f) + if c == '"' then ['"', '"'] else [c]
  {
    if f == [] {
      assert f + [c] == [c] && [c][1..] == [];
    } else {
      assert (f + [c])[0] == f[0] && (f + [c])[1..] == f[1..] + [c];
      QuotedGrows(f[1..], c);
    }
  }

  // ------------------------------------------------------------------ one more character

  /** What may come next, if the form is to be the longest of its kind. */
  predicate MayFollow(x: Form, rest: string)
    requires x.last != []
  {
    x.open.None? ==> Follows(rest, x.last[|x.last| - 1])
  }

  /** `x` and then `rest` is all of the text. */
  ghost predicate Splits(text: string, x: Form, rest: string) {
    LegalForm(x) && MayFollow(x, rest) && text == FormText(x) + rest
  }

  /** Inside an open quote. */
  lemma GrowOpen(text: string, x: Form, rest: string) returns (y: Form, n: nat)
    requires Splits(text, x, rest) && x.open.Some? && rest != []
    ensures 1 <= n <= |rest| && Splits(text, y, rest[n..])
  {
    var f := x.open.value;
    if rest[0] == '"' && (|rest| == 1 || rest[1] != '"') {
      y, n := Closed(x), 1;
      CloseQuote(x);
    } else {
      n := if rest[0] == '"' then 2 else 1;
      y := x.(open := Some(f + [rest[0]]));
      KeepQuoted(x, rest[0]);
    }
    Advance(text, x, y, rest, n);
  }

  lemma KeepQuoted(x: Form, c: char)
    requires LegalForm(x) && x.open.Some?
    ensures var y := x.(open := Some(x.open.value + [c]));
      LegalForm(y) && FormText(y) == FormText(x) + if c == '"' then ['"', '"'] else [c]
  {
    QuotedGrows(x.open.value, c);
  }

  /** What is added to the form is taken from the rest. */
  lemma Advance(text: string, x: Form, y: Form, rest: string, n: nat)
    requires Splits(text, x, rest) && n <= |rest|
    requires LegalForm(y) && FormText(y) == FormText(x) + rest[..n] && MayFollow(y, rest[n..])
    ensures Splits(text, y, rest[n..])
  {
    assert rest == rest[..n] + rest[n..];
    assert FormText(x) + (rest[..n] + rest[n..]) == (FormText(x) + rest[..n]) + rest[n..];
  }

  function Extended(x: Form, c: Cell): Form
    requires x.last != []
  {
    Form(x.lines, x.last[..|x.last| - 1] + [c], None)
  }

  function Closed(x: Form): Form
    requires x.last != [] && x.open.Some?
  {
    Extended(x, x.last[|x.last| - 1] + [Piece(x.open.value, true)])
  }

  lemma ExtendedText(x: Form, c: Cell, more: string)
    requires LegalForm(x) && LegalCell(c)
    requires EncodeCell(c) == EncodeCell(x.last[|x.last| - 1]) + (OpenText(x.open) + more)
    ensures LegalForm(Extended(x, c)) && FormText(Extended(x, c)) == FormText(x) + more
  {
    LastCellGrows(x.last, c, OpenText(x.open) + more);
    Regroup(EncodeLines(x.lines), EncodeCells(x.last), OpenText(x.open), more);
    assert forall d :: d in Extended(x, c).last ==> d in x.last || d == c;
  }

  lemma Regroup(a: string, b: string, c: string, d: string)
    ensures a + (b + (c + d) + []) == a + (b + c) + d
  {
    assert b + (c + d) + [] == b + c + d;
  }

  lemma CloseQuote(x: Form)
    requires LegalForm(x) && x.open.Some?
    ensures LegalForm(Closed(x)) && FormText(Closed(x)) == FormText(x) + ['"']
  {
    var cell, f := x.last[|x.last| - 1], x.open.value;
    assert cell in x.last;
    QuotedCell(cell, f);
    ExtendedText(x, cell + [Piece(f, true)], ['"']);
  }

  lemma QuotedCell(c: Cell, f: string)
    requires LegalCell(c) && !EndsQuoted(c)
    ensures LegalCell(c + [Piece(f, true)])
    ensures EncodeCell(c + [Piece(f, true)]) == EncodeCell(c) + (['"'] + DoubleQuotes(f) + ['"'])
  {
    CellGrows(c, Piece(f, true));
    var d := c + [Piece(f, true)];
    forall i | 0 <= i < |d| ensures LegalPiece(d[i]) { assert i < |c| ==> d[i] == c[i]; }
    forall i | 0 < i < |d| ensures !d[i - 1].quoted || !d[i].quoted { assert d[i - 1] == c[i - 1]; }
  }

  /** A plain character at the end of the last cell. */
  function WithChar(c: Cell, ch: char): Cell {
    if c != [] && !c[|c| - 1].quoted
    then c[..|c| - 1] + [Piece(c[|c| - 1].text + [ch], false)]
    else c + [Piece([ch], false)]
  }

  lemma WithCharText(c: Cell, ch: char)
    requires LegalCell(c) && ch !in {'"', ',', '\n'}
    ensures LegalCell(WithChar(c, ch)) && EncodeCell(WithChar(c, ch)) == EncodeCell(c) + [ch]
    ensures !EndsQuoted(WithChar(c, ch)) && (EndsInCr(WithChar(c, ch)) <==> ch == '\r')
  {
    if c != [] && !c[|c| - 1].quoted {
      var front, text := c[..|c| - 1], c[|c| - 1].text;
      assert c == front + [Piece(text, false)];
      LongerPiece(front, text, ch);
    } else {
      CellGrows(c, Piece([ch], false));
    }
  }

  lemma LongerPiece(front: Cell, text: string, ch: char)
    requires LegalCell(front + [Piece(text, false)]) && ch !in {'"', ',', '\n'}
    ensures LegalCell(front + [Piece(text + [ch], false)])
    ensures EncodeCell(front + [Piece(text + [ch], false)]) == EncodeCell(front + [Piece(text, false)]) + [ch]
  {
    var c := front + [Piece(text, false)];
    assert LegalPiece(c[|front|]);
    PlainPieceGrows(front, Piece(text, false), Piece(text + [ch], false));
    PieceGrows(front, text, [ch]);
  }

  lemma PlainPieceGrows(front: Cell, was: Piece, now: Piece)
    requires LegalCell(front + [was]) && !was.quoted && !now.quoted && LegalPiece(now)
    ensures LegalCell(front + [now])
  {
    var a, b := front + [was], front + [now];
    forall i | 0 <= i < |b| ensures LegalPiece(b[i]) { assert LegalPiece(a[i]); }
    forall i | 0 < i < |b| ensures !b[i - 1].quoted || !b[i].quoted {
      assert a[i - 1] == b[i - 1] && (i < |front| ==> a[i] == b[i]);
      assert !a[i - 1].quoted || !a[i].quoted;
    }
  }

  lemma PieceGrows(front: Cell, text: string, more: string)
    ensures EncodeCell(front + [Piece(text + more, false)]) == EncodeCell(front + [Piece(text, false)]) + more
  {
    CellGrows(front, Piece(text, false));
    CellGrows(front, Piece(text + more, false));
    assert EncodeCell(front) + (text + more) == EncodeCell(front) + text + more;
  }

  /** The last line gets its end. */
  function Ended(x: Form, crlf: bool): Form { Form(x.lines + [Line(x.last, crlf)], [[]], None) }

  lemma EndLine(x: Form, crlf: bool)
    requires LegalForm(x) && x.open.None? && (crlf || !EndsInCr(x.last[|x.last| - 1]))
    ensures LegalForm(Ended(x, crlf)) && FormText(Ended(x, crlf)) == FormText(x) + LineEnd(Line(x.last, crlf))
  {
    var l := Line(x.last, crlf);
    EndedIsLegal(x, crlf);
    LinesGrow(x.lines, l);
    Concat(EncodeLines(x.lines), EncodeCells(x.last), LineEnd(l));
    var text := EncodeLines(x.lines + [l]);
    assert EncodeCells([[]]) + OpenText(None) == [] && text + [] == text;
    assert EncodeCells(x.last) + [] == EncodeCells(x.last);
  }

  lemma EndedIsLegal(x: Form, crlf: bool)
    requires LegalForm(x) && (crlf || !EndsInCr(x.last[|x.last| - 1]))
    ensures LegalForm(Ended(x, crlf))
  {
    var l := Line(x.last, crlf);
    assert LegalLine(l);
    forall y | y in Ended(x, crlf).lines ensures LegalLine(y) { assert y in x.lines || y == l; }
  }

  lemma NewCell(x: Form)
    requires LegalForm(x) && x.open.None?
    ensures var y := x.(last := x.last + [[]]); LegalForm(y) && FormText(y) == FormText(x) + [',']
  {
    CellsGrow(x.last, []);
  }

  /** Outside quotes. */
  lemma GrowPlain(text: string, x: Form, rest: string) returns (y: Form, n: nat)
    requires Splits(text, x, rest) && x.open.None? && rest != []
    ensures 1 <= n <= |rest| && Splits(text, y, rest[n..])
  {
    n := if |rest| >= 2 && rest[0] == '\r' && rest[1] == '\n' then 2 else 1;
    if n == 2 {
      y := Ended(x, true);
      EndLine(x, true);
      assert rest[..n] == ['\r', '\n'];
    } else {
      y := OneMore(x, rest[0]);
      assert rest[..n] == [rest[0]];
    }
    Advance(text, x, y, rest, n);
  }

  lemma OneMore(x: Form, ch: char) returns (y: Form)
    requires LegalForm(x) && x.open.None? && MayFollow(x, [ch])
    ensures LegalForm(y) && FormText(y) == FormText(x) + [ch]
    ensures y.open.None? ==>
      !EndsQuoted(y.last[|y.last| - 1]) && (EndsInCr(y.last[|y.last| - 1]) ==> ch == '\r')
  {
    if ch == '"' {
      y := x.(open := Some(""));
      assert EncodeCells(x.last) + [] + ['"'] == EncodeCells(x.last) + (['"'] + DoubleQuotes(""));
    } else if ch == ',' {
      y := x.(last := x.last + [[]]);
      NewCell(x);
    } else if ch == '\n' {
      y := Ended(x, false);
      EndLine(x, false);
    } else {
      var cell := x.last[|x.last| - 1];
      y := Extended(x, WithChar(cell, ch));
      assert cell in x.last;
      WithCharText(cell, ch);
      ExtendedText(x, WithChar(cell, ch), [ch]);
    }
  }

  lemma {:induction false} GrowAll(text: string, x: Form, rest: string) returns (y: Form)
    requires Splits(text, x, rest)
    ensures LegalForm(y) && FormText(y) == text
    decreases |rest|
  {
    if rest == [] {
      y := x;
    } else {
      var next, n;
      if x.open.Some? { next, n := GrowOpen(text, x, rest); } else { next, n := GrowPlain(text, x, rest); }
      y := GrowAll(text, next, rest[n..]);
    }
  }

  // ------------------------------------------------------------------ every text

  /**
   Every text has such a form, and its rows are the texts of the form's lines, and the last
   row if one of its cells is not empty.
   */
  lemma EveryTextIsRead(text: string)
    ensures exists x ::
      LegalForm(x) && FormText(x) == text && RawRows(text) == LineTexts(x.lines) + LastRow(LastTexts(x))
  {
    var x0 := Form([], [[]], None);
    assert EncodeCells([[]]) == [] && FormText(x0) == [] && [] + text == text;
    var x := GrowAll(text, x0, text);
    FormIsRead(x);
  }

  /** A form determines the rows of its text. */
  lemma FormIsRead(x: Form)
    requires LegalForm(x)
    ensures RawRows(FormText(x)) == LineTexts(x.lines) + LastRow(LastTexts(x))
  {
    var n := |x.last| - 1;
    assert x.last == x.last[..n] + [x.last[n]];
    CellTextsGrow(x.last[..n], x.last[n]);
    if x.open.Some? {
      UnclosedQuote(x.lines, x.last, x.open.value);
    } else {
      LastLineWithoutEnd(x.lines, x.last);
      assert EncodeCells(x.last) + [] == EncodeCells(x.last);
      assert CellText(x.last[n]) + "" == CellText(x.last[n]);
    }
  }

  lemma {:induction false} CellTextsGrow(cs: seq<Cell>, c: Cell)
    ensures CellTexts(cs + [c]) == CellTexts(cs) + [CellText(c)]
    ensures |CellTexts(cs)| == |cs|
  {
    if cs == [] {
      assert cs + [c] == [c] && [c][1..] == [];
    } else {
      assert (cs + [c])[1..] == cs[1..] + [c];
      CellTextsGrow(cs[1..], c);
    }
  }
}
