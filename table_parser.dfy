/** Reading the per-cell annotations of the table body: the `!` heading marker
    on any cell and, on the first body row only, a column's width directive. */
module TableParser {
  import opened Wrappers
  import opened Decimal
  import opened WidthDirective

  /** What one body cell becomes: its display text, whether it is a heading
      cell, and the column width it sets (only cells of body row 0 set one). */
  datatype Cell = Cell(text: string, heading: bool, width: Option<nat>)

  /** The cell text with a leading `!` removed. A cell that is exactly `!`
      keeps it: the converter's branch for that case compares instead of
      assigning, so it changes nothing. */
  function StripHeadingMarker(cell: string): (t: string)
    requires cell != [] && cell[0] == '!'
    ensures |cell| > 1 ==> cell == "!" + t
    ensures |cell| == 1 ==> t == "!"
  {
    if |cell| > 1 then cell[1..] else cell
  }

  /** The per-cell rule for the cell in body row `row`. */
  function ParseCell(row: nat, cell: string): (c: Cell)
    ensures cell == [] ==> c == Cell([], false, None)
    ensures c.heading <==> cell != [] && cell[0] == '!'
    ensures c.width.Some? ==> row == 0
    ensures row > 0 && cell != [] && cell[0] == '!' ==> c.text == StripHeadingMarker(cell)
    ensures row > 0 && (cell == [] || cell[0] != '!') ==> c.text == cell
  {
    if cell == [] then Cell([], false, None)
    else
      var heading := cell[0] == '!';
      var text := if heading then StripHeadingMarker(cell) else cell;
      if row == 0 then
        match MatchWidthPrefix(text)
        case Some((width, rest)) => Cell(rest, heading, Some(width))
        case None => Cell(text, heading, None)
      else Cell(text, heading, None)
  }

  /** The width of column `j` as the converter stores it: 0 when no directive. */
  function WidthOrZero(width: Option<nat>): nat {
    match width
    case Some(w) => w
    case None => 0
  }

  predicate IsRectangular(body: seq<seq<string>>) {
    |body| >= 1 && forall i :: 0 <= i < |body| ==> |body[i]| == |body[0]|
  }

  /** The display text of every body cell, same shape as the body. */
  function ParsedText(body: seq<seq<string>>): (t: seq<seq<string>>)
    requires IsRectangular(body)
    ensures |t| == |body| && forall i :: 0 <= i < |t| ==> |t[i]| == |body[i]|
  {
    seq(|body|, i requires 0 <= i < |body| =>
      seq(|body[i]|, j requires 0 <= j < |body[i]| => ParseCell(i, body[i][j]).text))
  }

  /** The heading flag of every body cell, same shape as the body. */
  function ParsedHeading(body: seq<seq<string>>): (h: seq<seq<bool>>)
    requires IsRectangular(body)
    ensures |h| == |body| && forall i :: 0 <= i < |h| ==> |h[i]| == |body[i]|
  {
    seq(|body|, i requires 0 <= i < |body| =>
      seq(|body[i]|, j requires 0 <= j < |body[i]| => ParseCell(i, body[i][j]).heading))
  }

  /** One width per column, read from body row 0 only. */
  function ColumnWidths(body: seq<seq<string>>): (w: seq<nat>)
    requires IsRectangular(body)
    ensures |w| == |body[0]|
  {
    seq(|body[0]|, j requires 0 <= j < |body[0]| => WidthOrZero(ParseCell(0, body[0][j]).width))
  }

  /** The width rule for a non-empty cell: after the marker is stripped, a
      width is set exactly in row 0 when the text matches a directive, and the
      text is then the directive's rest; otherwise the stripped text is kept. */
  lemma WidthRule(row: nat, cell: string)
    requires cell != []
    ensures var c := ParseCell(row, cell);
      var text := if cell[0] == '!' then StripHeadingMarker(cell) else cell;
      (c.width.Some? <==> row == 0 && MatchWidthPrefix(text).Some?) &&
      (c.width.None? ==> c.text == text) &&
      (c.width.Some? ==> (c.width.value, c.text) == MatchWidthPrefix(text).value)
  {
  }

  /** In body row 0, an optional `!` followed by a directive `{N}` and a
      one-line, non-empty rest gives the column width N and the text rest. */
  lemma FirstRowDirective(cell: string, heading: bool, n: nat, rest: string)
    requires rest != [] && '\n' !in rest
    requires cell == (if heading then "!" else "") + ("{" + DecimalString(n) + "}" + rest)
    ensures ParseCell(0, cell) == Cell(rest, heading, Some(n))
  {
    var directive := "{" + DecimalString(n) + "}" + rest;
    WidthDirectiveRoundTrip(n, rest);
    FirstRowMatch(cell, heading, directive, n, rest);
  }

  /** Row 0 of a cell whose text after the marker matches a directive. */
  lemma FirstRowMatch(cell: string, heading: bool, text: string, n: nat, rest: string)
    requires text != [] && text[0] != '!'
    requires cell == (if heading then "!" else "") + text
    requires MatchWidthPrefix(text) == Some((n, rest))
    ensures ParseCell(0, cell) == Cell(rest, heading, Some(n))
  {
    MarkedText(cell, heading, text);
  }

  /** Row 0 of a cell whose text after the marker matches no directive: the
      marker is stripped as in any other row and no width is set. */
  lemma FirstRowNoDirective(cell: string, heading: bool, text: string)
    requires text != [] && text[0] != '!'
    requires cell == (if heading then "!" else "") + text
    requires MatchWidthPrefix(text).None?
    ensures ParseCell(0, cell) == Cell(text, heading, None)
  {
    MarkedText(cell, heading, text);
  }

  /** A cell made of an optional `!` and a text that does not start with `!`:
      the marker is recognised and removed, leaving that text. */
  lemma MarkedText(cell: string, heading: bool, text: string)
    requires text != [] && text[0] != '!'
    requires cell == (if heading then "!" else "") + text
    ensures cell != [] && (cell[0] == '!') == heading
    ensures (if heading then StripHeadingMarker(cell) else cell) == text
  {
    if heading {
      assert cell[1..] == text;
    }
  }

  /** In any later row the same cell keeps the directive as literal text and sets no width. */
  lemma LaterRowDirective(row: nat, cell: string, heading: bool, n: nat, rest: string)
    requires row > 0
    requires cell == (if heading then "!" else "") + ("{" + DecimalString(n) + "}" + rest)
    ensures ParseCell(row, cell) == Cell("{" + DecimalString(n) + "}" + rest, heading, None)
  {
    MarkedText(cell, heading, "{" + DecimalString(n) + "}" + rest);
  }

  /** A cell that is exactly `!` becomes a heading whose text is still `!`, in every row. */
  lemma {:induction false} BareHeadingMarker(row: nat)
    ensures ParseCell(row, "!") == Cell("!", true, None)
  {
    assert MatchWidthPrefix("!") == None;
  }

  lemma HeadingDirectiveExample(cell: string)
    requires cell == "!{30}Header"
    ensures ParseCell(0, cell) == Cell("Header", true, Some(30))
  {
    DecimalOfTwoDigits(30);
    assert cell == "!" + ("{" + DecimalString(30) + "}" + "Header");
    FirstRowDirective(cell, true, 30, "Header");
  }

  lemma FirstRowHeadingExample(cell: string)
    requires cell == "!Name"
    ensures ParseCell(0, cell) == Cell("Name", true, None)
  {
    assert cell == "!" + "Name";
    FirstRowNoDirective(cell, true, "Name");
  }

  lemma LaterRowDirectiveExample(cell: string)
    requires cell == "{30}Yellow"
    ensures ParseCell(1, cell) == Cell("{30}Yellow", false, None)
  {
    DecimalOfTwoDigits(30);
    assert cell == "" + ("{" + DecimalString(30) + "}" + "Yellow");
    LaterRowDirective(1, cell, false, 30, "Yellow");
  }

  /** The body of the converter's inner loop: rewrites cell (i, j) of the
      matrix in place, flags it as a heading, and on row 0 records its
      column's width. Nothing else changes. */
  method AnnotateCell(table: array2<string>, isHeading: array2<bool>, columnWidths: array<nat>, i: nat, j: nat)
    requires i < table.Length0 == isHeading.Length0
    requires j < table.Length1 == isHeading.Length1 == columnWidths.Length
    requires !isHeading[i, j]
    modifies table, isHeading, columnWidths
    ensures table[i, j] == ParseCell(i, old(table[i, j])).text
    ensures isHeading[i, j] == ParseCell(i, old(table[i, j])).heading
    ensures columnWidths[j] == match ParseCell(i, old(table[i, j])).width
                               case Some(w) => w
                               case None => old(columnWidths[j])
    ensures forall r, c :: 0 <= r < table.Length0 && 0 <= c < table.Length1 && (r, c) != (i, j) ==>
      table[r, c] == old(table[r, c])
    ensures forall r, c :: 0 <= r < isHeading.Length0 && 0 <= c < isHeading.Length1 && (r, c) != (i, j) ==>
      isHeading[r, c] == old(isHeading[r, c])
    ensures forall c :: 0 <= c < columnWidths.Length && c != j ==> columnWidths[c] == old(columnWidths[c])
  {
    // An empty cell is left as it is.
    if table[i, j] == [] {
      return;
    }
    if table[i, j][0] == '!' {
      isHeading[i, j] := true;
      if |table[i, j]| > 1 {
        table[i, j] := table[i, j][1..];
      }
      // A cell that is exactly "!" is not cleared.
    }
    if i == 0 {
      match MatchWidthPrefix(table[i, j])
      case Some((width, rest)) =>
        columnWidths[j] := width;
        table[i, j] := rest;
      case None =>
    }
  }

  /** The converter's inner loop over the columns of row `i`. */
  method AnnotateRow(table: array2<string>, isHeading: array2<bool>, columnWidths: array<nat>, i: nat)
    requires i < table.Length0 == isHeading.Length0
    requires table.Length1 == isHeading.Length1 == columnWidths.Length
    requires forall c :: 0 <= c < isHeading.Length1 ==> !isHeading[i, c]
    modifies table, isHeading, columnWidths
    ensures forall c :: 0 <= c < table.Length1 ==>
      table[i, c] == ParseCell(i, old(table[i, c])).text &&
      isHeading[i, c] == ParseCell(i, old(table[i, c])).heading &&
      columnWidths[c] == match ParseCell(i, old(table[i, c])).width
                         case Some(w) => w
                         case None => old(columnWidths[c])
    ensures forall r, c :: 0 <= r < table.Length0 && 0 <= c < table.Length1 && r != i ==>
      table[r, c] == old(table[r, c]) && isHeading[r, c] == old(isHeading[r, c])
  {
    for j := 0 to table.Length1
      invariant forall c :: 0 <= c < table.Length1 ==>
        table[i, c] == if c < j then ParseCell(i, old(table[i, c])).text else old(table[i, c])
      invariant forall c :: 0 <= c < table.Length1 ==>
        isHeading[i, c] == (c < j && ParseCell(i, old(table[i, c])).heading)
      invariant forall c :: 0 <= c < table.Length1 ==>
        columnWidths[c] == match (if c < j then ParseCell(i, old(table[i, c])).width else None)
                           case Some(w) => w
                           case None => old(columnWidths[c])
      invariant forall r, c :: 0 <= r < table.Length0 && 0 <= c < table.Length1 && r != i ==>
        table[r, c] == old(table[r, c]) && isHeading[r, c] == old(isHeading[r, c])
    {
      AnnotateCell(table, isHeading, columnWidths, i, j);
    }
  }

  /** Copies the body into a fresh matrix, then walks it row by row and column
      by column, rewriting each cell in place and recording heading flags and
      column widths in matrices that start out all false and all zero. */
  method ParseTable(body: seq<seq<string>>)
      returns (table: array2<string>, isHeading: array2<bool>, columnWidths: array<nat>)
    requires IsRectangular(body)
    ensures fresh(table) && fresh(isHeading) && fresh(columnWidths)
    ensures table.Length0 == isHeading.Length0 == |body|
    ensures table.Length1 == isHeading.Length1 == columnWidths.Length == |body[0]|
    ensures forall i, j :: 0 <= i < |body| && 0 <= j < |body[0]| ==>
      table[i, j] == ParseCell(i, body[i][j]).text && isHeading[i, j] == ParseCell(i, body[i][j]).heading
    ensures forall j :: 0 <= j < |body[0]| ==> columnWidths[j] == WidthOrZero(ParseCell(0, body[0][j]).width)
  {
    var rows, columns := |body|, |body[0]|;
    table := new string[rows, columns]((i, j) requires 0 <= i < rows && 0 <= j < columns => body[i][j]);
    isHeading := new bool[rows, columns]((i, j) => false);
    columnWidths := new nat[columns](j => 0);

    for i := 0 to rows
      invariant forall r, c :: 0 <= r < rows && 0 <= c < columns ==>
        table[r, c] == if r < i then ParseCell(r, body[r][c]).text else body[r][c]
      invariant forall r, c :: 0 <= r < rows && 0 <= c < columns ==>
        isHeading[r, c] == (r < i && ParseCell(r, body[r][c]).heading)
      invariant forall c :: 0 <= c < columns ==>
        columnWidths[c] == if i > 0 then WidthOrZero(ParseCell(0, body[0][c]).width) else 0
    {
      AnnotateRow(table, isHeading, columnWidths, i);
    }
  }
}
