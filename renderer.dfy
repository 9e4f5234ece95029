/** Writing the annotated table as MediaWiki table markup. The output is
    specified as a sequence of lines (each ending in a newline) joined
    together; GenerateSource builds the same text by appending piece by piece. */
module Renderer {
  import opened Decimal
  import opened Grid

  const Separator: string := "|-\n"
  const TableClose: string := "|}\n"

  /** The style attribute for a width in percent. */
  function WidthStyle(width: nat): string {
    " style=\"width:" + DecimalString(width) + "%\""
  }

  /** The line that opens the table; it carries the table width only when it is positive. */
  function OpenLine(tableWidth: nat): string {
    if tableWidth > 0 then "{| class=\"wikitable\"" + WidthStyle(tableWidth) + "\n" else "{| class=\"wikitable\"" + "\n"
  }

  /** The opening line is the class attribute, then the width style exactly
      when the table width is positive, then a newline. */
  lemma OpenLineShape(tableWidth: nat, open: string)
    requires open == OpenLine(tableWidth)
    ensures |open| >= 21 && open[..20] == "{| class=\"wikitable\"" && open[|open| - 1] == '\n'
    ensures tableWidth > 0 ==> open[20..|open| - 1] == WidthStyle(tableWidth)
    ensures tableWidth == 0 ==> |open| == 21
  {
  }

  function CaptionLine(title: string): string {
    "|+" + title + "\n"
  }

  /** The line of one cell: `!` for a heading cell and `|` otherwise, then the
      column's width style on row 0 when that width is positive, then a space,
      the text and a newline. */
  function CellLine(heading: bool, row: nat, width: nat, text: string): string {
    var marker := if heading then "!" else "|";
    var style := if row == 0 && width > 0 then WidthStyle(width) + " |" else "";
    marker + style + " " + text + "\n"
  }

  /** A cell line tells the kind of cell by its first character, is never
      taken for a row separator, and ends with a space, the text and a newline;
      the width style appears exactly on row 0 for a positive width. */
  lemma CellLineShape(heading: bool, row: nat, width: nat, text: string)
    ensures var line := CellLine(heading, row, width, text);
      |line| >= |text| + 2 &&
      line[0] == (if heading then '!' else '|') &&
      line != Separator &&
      line[|line| - |text| - 2..] == " " + text + "\n" &&
      (row == 0 && width > 0 ==> line[1..|line| - |text| - 2] == WidthStyle(width) + " |") &&
      (row > 0 || width == 0 ==> |line| == |text| + 3)
  {
    var line := CellLine(heading, row, width, text);
    assert line[1] == ' ';
  }

  /** The three matrices agree on their shape: as many heading rows as text
      rows, and every row as long as the width vector. */
  predicate Shaped(text: seq<seq<string>>, heading: seq<seq<bool>>, widths: seq<nat>) {
    |heading| == |text| &&
    forall i :: 0 <= i < |text| ==> |text[i]| == |widths| && |heading[i]| == |widths|
  }

  /** The cell lines of row `i`, one per column. */
  function RowLines(text: seq<seq<string>>, heading: seq<seq<bool>>, widths: seq<nat>, i: nat): (lines: seq<string>)
    requires Shaped(text, heading, widths) && i < |text|
    ensures |lines| == |widths|
  {
    seq(|widths|, j requires 0 <= j < |widths| => CellLine(heading[i][j], i, widths[j], text[i][j]))
  }

  /** The lines of the first `k` rows, each followed by a separator unless it
      is the last row of the table. */
  function BodyLines(text: seq<seq<string>>, heading: seq<seq<bool>>, widths: seq<nat>, k: nat): seq<string>
    requires Shaped(text, heading, widths) && k <= |text|
  {
    if k == 0 then []
    else
      BodyLines(text, heading, widths, k - 1) + RowLines(text, heading, widths, k - 1) +
      (if k - 1 != |text| - 1 then [Separator] else [])
  }

  /** All lines of the output. */
  function Lines(tableWidth: nat, title: string, text: seq<seq<string>>, heading: seq<seq<bool>>, widths: seq<nat>): seq<string>
    requires Shaped(text, heading, widths)
  {
    [OpenLine(tableWidth), CaptionLine(title)] + BodyLines(text, heading, widths, |text|) + [TableClose]
  }

  function Concat(lines: seq<string>): string {
    if lines == [] then "" else Concat(lines[..|lines| - 1]) + lines[|lines| - 1]
  }

  /** The markup of a whole table. */
  function Render(tableWidth: nat, title: string, text: seq<seq<string>>, heading: seq<seq<bool>>, widths: seq<nat>): string
    requires Shaped(text, heading, widths)
  {
    Concat(Lines(tableWidth, title, text, heading, widths))
  }

  lemma ConcatSnoc(lines: seq<string>, line: string)
    ensures Concat(lines + [line]) == Concat(lines) + line
  {
    assert (lines + [line])[..|lines|] == lines;
  }

  lemma {:induction false} ConcatAppend(a: seq<string>, b: seq<string>)
    ensures Concat(a + b) == Concat(a) + Concat(b)
  {
    if b != [] {
      var last := b[|b| - 1];
      assert a + b == (a + b[..|b| - 1]) + [last];
      ConcatSnoc(a + b[..|b| - 1], last);
      ConcatAppend(a, b[..|b| - 1]);
      ConcatSnoc(b[..|b| - 1], last);
      assert b[..|b| - 1] + [last] == b;
    } else {
      assert a + b == a;
    }
  }

  /** The index of the first line of row `i` among the body lines, for a table of `columns` columns. */
  function RowStart(i: nat, columns: nat): nat {
    i * (columns + 1)
  }

  /** The index of the line of cell (i, j) among the body lines. */
  function CellIndex(i: nat, j: nat, columns: nat): nat {
    RowStart(i, columns) + j
  }

  /** The index of the separator that follows row `i` among the body lines. */
  function SeparatorIndex(i: nat, columns: nat): nat {
    RowStart(i, columns) + columns
  }

  /** Each row contributes its cell lines and a separator, except that the
      table's last row has no separator. */
  lemma {:induction false} BodyLinesLength(text: seq<seq<string>>, heading: seq<seq<bool>>, widths: seq<nat>, k: nat)
    requires Shaped(text, heading, widths) && k <= |text|
    ensures |BodyLines(text, heading, widths, k)| + (if k == |text| && k > 0 then 1 else 0) == RowStart(k, |widths|)
  {
    if k > 0 {
      BodyLinesLength(text, heading, widths, k - 1);
      assert RowStart(k, |widths|) == RowStart(k - 1, |widths|) + |widths| + 1;
    }
  }

  /** The lines of fewer rows are a prefix of the lines of more rows. */
  lemma {:induction false} BodyLinesPrefix(text: seq<seq<string>>, heading: seq<seq<bool>>, widths: seq<nat>, i: nat, k: nat)
    requires Shaped(text, heading, widths) && i <= k <= |text|
    ensures BodyLines(text, heading, widths, i) <= BodyLines(text, heading, widths, k)
  {
    if i < k {
      BodyLinesPrefix(text, heading, widths, i, k - 1);
    }
  }

  /** The line of cell (i, j) is body line RowStart(i) + j. */
  lemma CellLinePosition(text: seq<seq<string>>, heading: seq<seq<bool>>, widths: seq<nat>, i: nat, j: nat)
    requires Shaped(text, heading, widths) && i < |text| && j < |widths|
    ensures CellIndex(i, j, |widths|) < |BodyLines(text, heading, widths, |text|)|
    ensures BodyLines(text, heading, widths, |text|)[CellIndex(i, j, |widths|)] ==
      CellLine(heading[i][j], i, widths[j], text[i][j])
  {
    BodyLinesLength(text, heading, widths, i);
    BodyLinesLength(text, heading, widths, |text|);
    BodyLinesPrefix(text, heading, widths, i + 1, |text|);
    assert RowStart(i + 1, |widths|) <= RowStart(|text|, |widths|) by {
      assert (i + 1) * (|widths| + 1) <= |text| * (|widths| + 1);
    }
  }

  /** The line after the cells of every row but the last is the separator. */
  lemma SeparatorPosition(text: seq<seq<string>>, heading: seq<seq<bool>>, widths: seq<nat>, i: nat)
    requires Shaped(text, heading, widths) && i + 1 < |text|
    ensures SeparatorIndex(i, |widths|) < |BodyLines(text, heading, widths, |text|)|
    ensures BodyLines(text, heading, widths, |text|)[SeparatorIndex(i, |widths|)] == Separator
  {
    BodyLinesLength(text, heading, widths, i);
    BodyLinesLength(text, heading, widths, i + 1);
    BodyLinesPrefix(text, heading, widths, i + 1, |text|);
  }

  /** The whole layout of the body lines for R rows and C columns: R * (C + 1) - 1
      lines, the cells in row-major order with a separator between consecutive
      rows and none after the last. */
  lemma BodyLinesLayout(text: seq<seq<string>>, heading: seq<seq<bool>>, widths: seq<nat>, lines: seq<string>)
    requires Shaped(text, heading, widths) && |text| > 0
    requires lines == BodyLines(text, heading, widths, |text|)
    ensures |lines| == RowStart(|text|, |widths|) - 1
    ensures forall i: nat, j: nat :: i < |text| && j < |widths| ==>
      CellIndex(i, j, |widths|) < |lines| && lines[CellIndex(i, j, |widths|)] == CellLine(heading[i][j], i, widths[j], text[i][j])
    ensures forall i: nat :: i + 1 < |text| ==>
      SeparatorIndex(i, |widths|) < |lines| && lines[SeparatorIndex(i, |widths|)] == Separator
  {
    BodyLinesLength(text, heading, widths, |text|);
    forall i: nat, j: nat | i < |text| && j < |widths|
      ensures CellIndex(i, j, |widths|) < |lines| && lines[CellIndex(i, j, |widths|)] == CellLine(heading[i][j], i, widths[j], text[i][j])
    {
      CellLinePosition(text, heading, widths, i, j);
    }
    forall i: nat | i + 1 < |text|
      ensures SeparatorIndex(i, |widths|) < |lines| && lines[SeparatorIndex(i, |widths|)] == Separator
    {
      SeparatorPosition(text, heading, widths, i);
    }
  }

  /** The separators among the lines of the first `k` rows: one after each row
      but the table's last. */
  lemma {:induction false} SeparatorCount(text: seq<seq<string>>, heading: seq<seq<bool>>, widths: seq<nat>, k: nat)
    requires Shaped(text, heading, widths) && 0 < k <= |text|
    ensures multiset(BodyLines(text, heading, widths, k))[Separator] == if k == |text| then k - 1 else k
  {
    SeparatorStep(text, heading, widths, k);
    if k > 1 {
      SeparatorCount(text, heading, widths, k - 1);
    }
  }

  /** Row `k - 1` adds one separator, unless it is the table's last row. */
  lemma SeparatorStep(text: seq<seq<string>>, heading: seq<seq<bool>>, widths: seq<nat>, k: nat)
    requires Shaped(text, heading, widths) && 0 < k <= |text|
    ensures multiset(BodyLines(text, heading, widths, k))[Separator] ==
      multiset(BodyLines(text, heading, widths, k - 1))[Separator] + (if k < |text| then 1 else 0)
  {
    RowHasNoSeparator(text, heading, widths, k - 1);
    CountStep(BodyLines(text, heading, widths, k - 1), RowLines(text, heading, widths, k - 1), k - 1 != |text| - 1, Separator);
  }

  /** Appending a row without `x`, and `x` itself when `extra` holds. */
  lemma CountStep(before: seq<string>, row: seq<string>, extra: bool, x: string)
    requires multiset(row)[x] == 0
    ensures multiset(before + row + (if extra then [x] else []))[x] == multiset(before)[x] + (if extra then 1 else 0)
  {
    assert multiset(before + row + (if extra then [x] else [])) ==
      multiset(before) + multiset(row) + multiset(if extra then [x] else []);
  }

  /** No cell line of a row is a separator. */
  lemma RowHasNoSeparator(text: seq<seq<string>>, heading: seq<seq<bool>>, widths: seq<nat>, i: nat)
    requires Shaped(text, heading, widths) && i < |text|
    ensures multiset(RowLines(text, heading, widths, i))[Separator] == 0
  {
    var row := RowLines(text, heading, widths, i);
    forall j | 0 <= j < |row| ensures row[j] != Separator {
      CellLineShape(heading[i][j], i, widths[j], text[i][j]);
    }
    assert Separator !in row;
  }

  /** A table of R rows and C columns has R - 1 separators and R * C cell lines. */
  lemma LineCounts(text: seq<seq<string>>, heading: seq<seq<bool>>, widths: seq<nat>)
    requires Shaped(text, heading, widths) && |text| > 0
    ensures var lines := BodyLines(text, heading, widths, |text|);
      multiset(lines)[Separator] == |text| - 1 &&
      |lines| - multiset(lines)[Separator] == |text| * |widths|
  {
    SeparatorCount(text, heading, widths, |text|);
    BodyLinesLength(text, heading, widths, |text|);
    assert RowStart(|text|, |widths|) == |text| * |widths| + |text|;
  }

  /** The output is the opening line, the caption line, the body lines and the
      closing line, in that order. */
  lemma RenderFrame(tableWidth: nat, title: string, text: seq<seq<string>>, heading: seq<seq<bool>>, widths: seq<nat>)
    requires Shaped(text, heading, widths)
    ensures Render(tableWidth, title, text, heading, widths) ==
      OpenLine(tableWidth) + CaptionLine(title) + Concat(BodyLines(text, heading, widths, |text|)) + TableClose
    ensures OpenLine(tableWidth) + CaptionLine(title) <= Render(tableWidth, title, text, heading, widths)
  {
    ConcatFrame(OpenLine(tableWidth), CaptionLine(title), BodyLines(text, heading, widths, |text|), TableClose);
  }

  /** Joining two leading lines, some body lines and a trailing line. */
  lemma ConcatFrame(first: string, second: string, body: seq<string>, last: string)
    ensures Concat([first, second] + body + [last]) == first + second + Concat(body) + last
  {
    ConcatSnoc([first, second] + body, last);
    ConcatAppend([first, second], body);
    ConcatPair(first, second);
  }

  lemma ConcatPair(first: string, second: string)
    ensures Concat([first, second]) == first + second
  {
    ConcatSnoc([first], second);
    ConcatSnoc([], first);
    assert [first] + [second] == [first, second];
  }

  /** Appends the line of one cell to the accumulator, piece by piece. */
  method AppendCell(out: string, heading: bool, row: nat, width: nat, text: string) returns (result: string)
    ensures result == out + CellLine(heading, row, width, text)
  {
    ghost var marker := if heading then "!" else "|";
    ghost var style := if row == 0 && width > 0 then WidthStyle(width) + " |" else "";
    result := out;
    if heading {
      result := result + "!";
    } else {
      result := result + "|";
    }
    if row == 0 {
      if width > 0 {
        ghost var before := result;
        result := result + WidthStyle(width) + " |";
        AppendAssoc(before, WidthStyle(width), " |");
      }
    }
    assert result == out + (marker + style) by {
      AppendAssoc(out, marker, style);
    }
    ghost var before := result;
    result := result + " " + text + "\n";
    AppendAssoc(out, marker + style, " ");
    AppendAssoc(out, marker + style + " ", text);
    AppendAssoc(out, marker + style + " " + text, "\n");
  }

  lemma AppendAssoc(a: string, b: string, c: string)
    ensures a + (b + c) == (a + b) + c
  {
  }

  /** Adding one row to the body lines appends its cell lines and, unless
      it is the last row, a separator. */
  lemma BodyLinesStep(text: seq<seq<string>>, heading: seq<seq<bool>>, widths: seq<nat>, i: nat)
    requires Shaped(text, heading, widths) && i < |text|
    ensures Concat(BodyLines(text, heading, widths, i + 1)) ==
      Concat(BodyLines(text, heading, widths, i)) + Concat(RowLines(text, heading, widths, i)) +
      (if i != |text| - 1 then Separator else "")
  {
    ConcatStep(BodyLines(text, heading, widths, i), RowLines(text, heading, widths, i), i != |text| - 1, Separator);
  }

  lemma ConcatStep(done: seq<string>, row: seq<string>, extra: bool, x: string)
    ensures Concat(done + row + (if extra then [x] else [])) == Concat(done) + Concat(row) + (if extra then x else "")
  {
    ConcatAppend(done, row);
    if extra {
      ConcatSnoc(done + row, x);
    } else {
      assert done + row + [] == done + row;
    }
  }

  /** Appends the lines of row `i`, column by column (the converter's inner loop). */
  method AppendRow(out: string, table: array2<string>, isHeading: array2<bool>, columnWidths: array<nat>, i: nat,
                   ghost row: seq<string>)
      returns (result: string)
    requires isHeading.Length0 == table.Length0 && i < table.Length0
    requires isHeading.Length1 == table.Length1 == columnWidths.Length == |row|
    requires forall j :: 0 <= j < |row| ==> row[j] == CellLine(isHeading[i, j], i, columnWidths[j], table[i, j])
    ensures result == out + Concat(row)
  {
    result := out;
    assert row[..0] == [];
    for j := 0 to table.Length1
      invariant result == out + Concat(row[..j])
    {
      result := AppendCell(result, isHeading[i, j], i, columnWidths[j], table[i, j]);
      assert row[..j + 1] == row[..j] + [row[j]];
      ConcatSnoc(row[..j], row[j]);
    }
    assert row[..table.Length1] == row;
  }

  /** Starts the accumulator with the opening line and the caption line. */
  method OpenTable(tableWidth: nat, title: string) returns (out: string)
    ensures out == OpenLine(tableWidth) + CaptionLine(title)
  {
    out := "{| class=\"wikitable\"";
    if tableWidth > 0 {
      out := out + WidthStyle(tableWidth) + "\n";
    } else {
      out := out + "\n";
    }
    ghost var open := out;
    out := out + "|+" + title + "\n";
    AppendAssoc(open, "|+", title);
    AppendAssoc(open, "|+" + title, "\n");
  }

  /** The row lines of the arrays' contents are the cell lines of the arrays' entries. */
  lemma RowLinesOfArrays(table: array2<string>, isHeading: array2<bool>, columnWidths: array<nat>, i: nat)
    requires isHeading.Length0 == table.Length0 && i < table.Length0
    requires isHeading.Length1 == table.Length1 == columnWidths.Length
    ensures Shaped(Rows(table), Rows(isHeading), columnWidths[..])
    ensures var row := RowLines(Rows(table), Rows(isHeading), columnWidths[..], i);
      |row| == table.Length1 &&
      forall j :: 0 <= j < |row| ==> row[j] == CellLine(isHeading[i, j], i, columnWidths[j], table[i, j])
  {
  }

  /** Appends the lines of every row, each but the last followed by a separator. */
  method AppendRows(out: string, table: array2<string>, isHeading: array2<bool>, columnWidths: array<nat>)
      returns (result: string)
    requires isHeading.Length0 == table.Length0
    requires isHeading.Length1 == table.Length1 == columnWidths.Length
    ensures Shaped(Rows(table), Rows(isHeading), columnWidths[..])
    ensures result == out + Concat(BodyLines(Rows(table), Rows(isHeading), columnWidths[..], table.Length0))
  {
    ghost var text, heading, widths := Rows(table), Rows(isHeading), columnWidths[..];
    assert Shaped(text, heading, widths);
    var rows := table.Length0;
    result := out;
    for i := 0 to rows
      invariant result == out + Concat(BodyLines(text, heading, widths, i))
    {
      ghost var done := Concat(BodyLines(text, heading, widths, i));
      ghost var row := RowLines(text, heading, widths, i);
      RowLinesOfArrays(table, isHeading, columnWidths, i);
      result := AppendRow(result, table, isHeading, columnWidths, i, row);
      AppendAssoc(out, done, Concat(row));
      if i != rows - 1 {
        result := result + Separator;
        AppendAssoc(out, done + Concat(row), Separator);
      }
      BodyLinesStep(text, heading, widths, i);
    }
  }

  /** Builds the markup by appending to an accumulator, row by row and cell by cell. */
  method GenerateSource(tableWidth: nat, title: string, table: array2<string>, isHeading: array2<bool>, columnWidths: array<nat>)
      returns (out: string)
    requires isHeading.Length0 == table.Length0
    requires isHeading.Length1 == table.Length1 == columnWidths.Length
    ensures Shaped(Rows(table), Rows(isHeading), columnWidths[..])
    ensures out == Render(tableWidth, title, Rows(table), Rows(isHeading), columnWidths[..])
  {
    out := OpenTable(tableWidth, title);
    out := AppendRows(out, table, isHeading, columnWidths);
    out := out + TableClose;
    RenderFrame(tableWidth, title, Rows(table), Rows(isHeading), columnWidths[..]);
  }
}
