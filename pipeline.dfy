/** The converter's main path: split the grid read from the CSV file, read the
    title, annotate the body and render it. Reading the file and writing the
    result are not part of this model. */
module Pipeline {
  import opened Wrappers
  import opened Grid
  import opened TitleTable
  import opened TableParser
  import opened Renderer

  /** A grid the converter gets through to the renderer with: a non-empty
      title row, at least one body row, and body rows of equal length. */
  predicate WellFormed(elems: seq<seq<string>>) {
    |elems| >= 2 && elems[0] != [] && BodyIsRectangular(elems)
  }

  /** The body rows of a well-formed grid are rectangular, and the annotated
      matrices built from them agree on their shape. */
  lemma WellFormedBody(elems: seq<seq<string>>)
    requires WellFormed(elems)
    ensures IsRectangular(elems[1..])
    ensures Shaped(ParsedText(elems[1..]), ParsedHeading(elems[1..]), ColumnWidths(elems[1..]))
  {
    var body := elems[1..];
    assert forall i :: 0 <= i < |body| ==> body[i] == elems[i + 1];
  }

  /** The markup the converter prints for a well-formed grid whose title
      carries a width directive. */
  function Converted(elems: seq<seq<string>>): (out: string)
    requires WellFormed(elems) && ParseTitle(elems[0][0]).width.Some?
    ensures OpenLine(ParseTitle(elems[0][0]).width.value) + CaptionLine(ParseTitle(elems[0][0]).title) <= out
  {
    WellFormedBody(elems);
    var body := elems[1..];
    var title := ParseTitle(elems[0][0]);
    RenderFrame(title.width.value, title.title, ParsedText(body), ParsedHeading(body), ColumnWidths(body));
    Render(title.width.value, title.title, ParsedText(body), ParsedHeading(body), ColumnWidths(body))
  }

  /** The contents of the matrices the parser fills are the parsed body. */
  lemma AnnotatedRows(body: seq<seq<string>>, table: array2<string>, isHeading: array2<bool>, columnWidths: array<nat>)
    requires IsRectangular(body)
    requires table.Length0 == isHeading.Length0 == |body|
    requires table.Length1 == isHeading.Length1 == columnWidths.Length == |body[0]|
    requires forall i, j :: 0 <= i < |body| && 0 <= j < |body[0]| ==>
      table[i, j] == ParseCell(i, body[i][j]).text && isHeading[i, j] == ParseCell(i, body[i][j]).heading
    requires forall j :: 0 <= j < |body[0]| ==> columnWidths[j] == WidthOrZero(ParseCell(0, body[0][j]).width)
    ensures Rows(table) == ParsedText(body)
    ensures Rows(isHeading) == ParsedHeading(body)
    ensures columnWidths[..] == ColumnWidths(body)
  {
    var text, heading := Rows(table), Rows(isHeading);
    forall i | 0 <= i < |body| ensures text[i] == ParsedText(body)[i] && heading[i] == ParsedHeading(body)[i] {
      assert |text[i]| == |ParsedText(body)[i]|;
    }
  }

  /** Runs the four steps in the converter's order. Each error stops the run
      where Python would raise: an empty grid or title row, a body row of the
      wrong length, no body row at all (when the body's column count is read),
      and a title without a width directive (when that missing width is
      compared with 0 in the renderer). */
  method Convert(elems: seq<seq<string>>) returns (r: Result<string, ConversionError>)
    ensures r == Err(NoTitleRow) <==> elems == []
    ensures r == Err(EmptyTitleRow) <==> elems != [] && elems[0] == []
    ensures elems != [] && elems[0] != [] && !BodyIsRectangular(elems) ==> r.Err? && r.error.ColumnCountMismatch?
    ensures r.Err? && r.error.ColumnCountMismatch? ==> IsFirstMismatch(elems, r.error.line)
    ensures r == Err(NoBodyRows) <==> |elems| == 1 && elems[0] != []
    ensures r == Err(MissingTableWidth) <==> WellFormed(elems) && ParseTitle(elems[0][0]).width.None?
    ensures r.Ok? <==> WellFormed(elems) && ParseTitle(elems[0][0]).width.Some?
    ensures r.Ok? ==> r.value == Converted(elems)
  {
    var split := SplitTitleAndTable(elems);
    if split.Err? {
      return Err(split.error);
    }
    var (titleRaw, body) := split.value;
    var parsed := ParseTitle(titleRaw);
    if body == [] {
      return Err(NoBodyRows);
    }
    WellFormedBody(elems);
    var table, isHeading, columnWidths := ParseTable(body);
    if parsed.width.None? {
      return Err(MissingTableWidth);
    }
    var out := GenerateSource(parsed.width.value, parsed.title, table, isHeading, columnWidths);
    AnnotatedRows(body, table, isHeading, columnWidths);
    return Ok(out);
  }
}
