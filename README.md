# csv2wikitable in Dafny

A model of the conversion logic of `csv2wikitable.py`, a command-line tool
that turns a CSV table into MediaWiki table markup. The CSV file arrives
already split into a grid of cells (`seq<seq<string>>`):

- row 0 is the title row; its first cell is the caption, optionally prefixed
  with a width directive `{N}` giving the table width in percent;
- the rows after it are the table body; a cell starting with `!` is a heading
  cell, and a cell of the first body row may carry a `{N}` directive giving
  its column's width in percent.

The model follows the converter's four steps and the order in which `main`
chains them:

- `TitleTable.SplitTitleAndTable` takes the title cell and checks that every
  body row has the length of the row before it (a loop carrying the previous
  length, as in the source).
- `TitleTable.ParseTitle` peels the width directive off the title.
- `TableParser.ParseTable` copies the body into an `array2<string>`, then
  rewrites it in place with nested loops. It fills an `array2<bool>` of
  heading flags and an `array<nat>` of column widths. Each loop is proved
  against the pure per-cell rule `TableParser.ParseCell`.
- `Renderer.GenerateSource` appends the markup to an accumulator, row by row
  and cell by cell. It is proved equal to `Renderer.Render`, which joins a
  sequence of lines: the opening line, the caption line, the body lines and
  the closing line. The layout, the counts and the shape of those lines are
  proved as lemmas.
- `Pipeline.Convert` runs the four steps and characterises every outcome,
  including each error.

The regular expression `{(\d+)}(.+)`, used on both the title and the
first-row cells, is one shared hand-written matcher,
`WidthDirective.MatchWidthPrefix`. Python's `re.match` anchors it at the start
of the text only. `\d+` takes the longest run of digits, and `.+` takes the
longest non-empty run of characters that are not newlines.

The model follows these behaviours of the code:

- **The title-row check is vacuous.** The check at `csv2wikitable.py:42-43`
  compares the whole row (a list) with the empty string. The result is always
  a single `True`, so the assertion never fires. A title row with several
  non-empty cells is accepted, and its first cell is the title, even when it
  is empty. The only failures are an empty grid (`NoTitleRow`) and an empty
  first row (`EmptyTitleRow`), both index errors in Python.
- **A bare `!` cell keeps its text.** A cell that is exactly `!` becomes a
  heading cell and keeps the text `!`. Line 89 compares instead of assigning.
- **A title without a width is an error.** `None > 0` at line 105 raises a
  `TypeError`, so the model reports `MissingTableWidth`. The same
  table with `{0}` before its title renders without the attribute.
- **A grid with only the title row is an error.** Line 75 fails on the
  one-dimensional array built from no rows. The model reports `NoBodyRows`.
  This happens after the title has been parsed and before any width is
  looked at.

## Model

| member | source | states |
|---|---|---|
| Decimal.DecimalString | csv2wikitable.py:106 | `{:d}` writes a natural number as a non-empty run of ASCII digits, with a leading `0` only for zero and a single digit exactly below 10 |
| Decimal.DecimalOfTwoDigits | csv2wikitable.py:106 | a two-digit number is written as its tens digit then its units digit |
| Decimal.DecimalRoundTrip | csv2wikitable.py:64 | reading a written number back with `int` gives the same number |
| WidthDirective.LeadingDigits | csv2wikitable.py:62 | the greedy `\d+`: a prefix made of digits that is followed by a non-digit or by the end |
| WidthDirective.LineHead | csv2wikitable.py:62 | the greedy `.+`: a prefix with no newline that is followed by a newline or by the end |
| WidthDirective.MatchWidthPrefix | csv2wikitable.py:62 | soundness of a match: the text is `{`, a non-empty digit run, `}` and a tail; the number is the digits' value and the rest is the tail's first line, which is non-empty |
| WidthDirective.MatchWidthPrefixComplete | csv2wikitable.py:93 | completeness: every `{digits}tail` matches exactly when the tail's first line is non-empty, with that value and rest, so the matcher is an if-and-only-if |
| WidthDirective.LeadingDigitsOfDirective | csv2wikitable.py:62 | in `{digits}tail` the greedy digit run stops exactly at the closing brace |
| WidthDirective.LineHeadWithoutNewline | csv2wikitable.py:65 | a text without a newline is taken whole by `.+` |
| WidthDirective.WidthDirectiveRoundTrip | csv2wikitable.py:62-65 | `{N}t`, with N written in decimal and t a non-empty line, matches with exactly N and t |
| TitleTable.SplitTitleAndTable | csv2wikitable.py:40-58 | `NoTitleRow` exactly for the empty grid and `EmptyTitleRow` exactly for an empty first row; success exactly when rows 1.. all have row 1's length, giving `elems[0][0]` and the rows after it unchanged; a ragged body under a non-empty title row fails with `ColumnCountMismatch`, naming the first row whose length differs from its predecessor |
| TitleTable.ParseTitle | csv2wikitable.py:61-69 | a width is found exactly when the title matches the directive, and then the width and title are the match's number and rest (non-empty, no newline); without a match the raw title is kept whole |
| TitleTable.ParseTitleRoundTrip | csv2wikitable.py:61-69 | `{N}title` gives the title and width N for every non-empty one-line title |
| TitleTable.ParseTitleBareDirective | csv2wikitable.py:62-68 | `{digits}` with nothing after it is no directive: the title stays whole with no width |
| TitleTable.ParseTitleWithWidthExample | csv2wikitable.py:61-69 | `{42}My Table` gives the title `My Table` and the width 42 |
| TitleTable.ParseTitleBareExample | csv2wikitable.py:61-69 | `{42}` stays the whole title with no width |
| TableParser.StripHeadingMarker | csv2wikitable.py:86-89 | a longer cell loses exactly its leading `!`; a cell that is exactly `!` keeps it |
| TableParser.ParseCell | csv2wikitable.py:80-95 | an empty cell stays empty, is no heading and sets no width; a cell is a heading exactly when it starts with `!`; only row 0 can set a width; in later rows the text is the cell with its marker stripped |
| TableParser.FirstRowDirective | csv2wikitable.py:84-95 | in body row 0 an optional `!`, then `{N}` and a non-empty one-line rest give that heading flag, width N and text rest |
| TableParser.WidthRule | csv2wikitable.py:84-95 | for a non-empty cell, after the marker strip: a width is set exactly in row 0 on a directive match, with the match's number and rest; otherwise the stripped text is kept and no width is set |
| TableParser.FirstRowNoDirective | csv2wikitable.py:84-93 | in row 0 a cell whose stripped text matches no directive keeps that text and sets no width |
| TableParser.FirstRowHeadingExample | csv2wikitable.py:84-93 | `!Name` in row 0 becomes a heading with text `Name` and no width |
| TableParser.FirstRowMatch | csv2wikitable.py:92-95 | in row 0 the directive is matched on the text after the heading strip |
| TableParser.MarkedText | csv2wikitable.py:84-87 | a leading `!` followed by text not starting with `!` is recognised and removed, leaving that text |
| TableParser.LaterRowDirective | csv2wikitable.py:92 | in rows after 0 the same cell keeps the directive as literal text and sets no width |
| TableParser.BareHeadingMarker | csv2wikitable.py:88-89 | a cell that is exactly `!` is a heading with the text `!`, in every row |
| TableParser.HeadingDirectiveExample | csv2wikitable.py:84-95 | `!{30}Header` in row 0 becomes a heading with width 30 and text `Header` |
| TableParser.LaterRowDirectiveExample | csv2wikitable.py:92-95 | `{30}Yellow` in row 1 keeps its text and sets no width |
| TableParser.ParsedText | csv2wikitable.py:73 | the text matrix has the body's shape |
| TableParser.ParsedHeading | csv2wikitable.py:74 | the heading matrix has the body's shape |
| TableParser.ColumnWidths | csv2wikitable.py:75 | one width per column |
| TableParser.AnnotateCell | csv2wikitable.py:79-95 | cell (i, j) becomes its parsed text and heading flag; column j's width is replaced only by a directive; nothing else changes |
| TableParser.AnnotateRow | csv2wikitable.py:78-95 | every cell of row i is annotated; other rows and, outside row 0, the widths are unchanged |
| TableParser.ParseTable | csv2wikitable.py:72-97 | fresh matrices of the body's dimensions and one width per column; every cell holds ParseCell's text and flag; a width is the row-0 directive's number, or 0 without one |
| Renderer.OpenLineShape | csv2wikitable.py:104-108 | the opening line is `{\| class="wikitable"`, then the width style exactly when the table width is positive, then a newline |
| Renderer.CellLineShape | csv2wikitable.py:116-125 | a cell line starts with `!` for a heading and `\|` otherwise; it carries the width style exactly on row 0 with a positive width; it ends with a space, the text and a newline; it is never a separator |
| Renderer.RowLines | csv2wikitable.py:115-125 | one cell line per column |
| Renderer.BodyLinesLength | csv2wikitable.py:114-128 | every row adds its cells and a separator, except the last row |
| Renderer.BodyLinesPrefix | csv2wikitable.py:114-128 | the lines of fewer rows are a prefix of the lines of more rows |
| Renderer.CellLinePosition | csv2wikitable.py:114-125 | the line of cell (i, j) is body line i·(C+1)+j |
| Renderer.SeparatorPosition | csv2wikitable.py:127-128 | the line after each row but the last is `\|-` |
| Renderer.BodyLinesLayout | csv2wikitable.py:114-128 | for R rows and C columns: R·(C+1)−1 body lines, the cells in row-major order, a separator between consecutive rows and none after the last |
| Renderer.SeparatorCount | csv2wikitable.py:127-128 | the first k rows carry k separators, or k−1 when they are the whole table |
| Renderer.SeparatorStep | csv2wikitable.py:127-128 | each row adds one separator, except the last row |
| Renderer.RowHasNoSeparator | csv2wikitable.py:116-125 | no cell line of a row is a separator |
| Renderer.LineCounts | csv2wikitable.py:114-128 | exactly R−1 separators and R·C cell lines |
| Renderer.RenderFrame | csv2wikitable.py:103-111 | the output is the opening line, the caption, the body lines and `\|}`, in that order; it starts with the opening line and the caption |
| Renderer.ConcatAppend | csv2wikitable.py:101-129 | joining two runs of lines is joining each and appending |
| Renderer.AppendCell | csv2wikitable.py:116-125 | appends exactly the cell's line |
| Renderer.AppendRow | csv2wikitable.py:115-125 | appends exactly the lines of row i |
| Renderer.AppendRows | csv2wikitable.py:114-128 | appends exactly the body lines of all rows |
| Renderer.OpenTable | csv2wikitable.py:101-111 | starts the output with the opening line and the caption |
| Renderer.BodyLinesStep | csv2wikitable.py:126-128 | one more row adds its cell lines and, unless it is the last, a separator |
| Renderer.RowLinesOfArrays | csv2wikitable.py:115-125 | the row lines of the arrays' contents are the lines of their entries |
| Renderer.GenerateSource | csv2wikitable.py:100-131 | the text built by appending equals the specified rendering of the arrays' contents |
| Pipeline.WellFormedBody | csv2wikitable.py:56 | the body of an accepted grid is rectangular, and its parsed matrices agree on their shape |
| Pipeline.AnnotatedRows | csv2wikitable.py:143 | the matrices the parser fills hold the parsed body |
| Pipeline.Converted | csv2wikitable.py:139-146 | the output of an accepted grid starts with its opening line and caption |
| Pipeline.Convert | csv2wikitable.py:139-146 | in the source's order: `NoTitleRow` exactly for the empty grid, `EmptyTitleRow` exactly for an empty first row, `ColumnCountMismatch` for every ragged body naming the first mismatching row, `NoBodyRows` exactly for a lone non-empty title row, `MissingTableWidth` exactly for an accepted grid whose title has no directive; otherwise success, with the rendering of the parsed title and body |

## Left out

- Command-line parsing (`parse_args`), reading the file, writing or printing the output, and the exits in `read_csv` and `main`. These are I/O. `print` also adds one more newline after the markup.
- Python's `csv.reader` quoting rules and the per-cell `strip()`. The grid is taken as already split and trimmed. The model's input is that grid.
- NumPy itself. Its matrices are `array2`/`array` here. Fixed-width NumPy strings drop trailing NUL characters; a cell ending in NUL is not modelled.
- MatchWidthPrefix: `\d` is limited to ASCII digits, while Python's `\d` also matches other Unicode decimal digits.
- TableParser.ParseTable: column widths are unbounded naturals. The int64 overflow of a huge directive in NumPy's integer array is not modelled.
- Python's `str.format` is modelled only for `{:d}` on a natural number and for `{:s}` on a string.
- The assertion messages (`"line {}: ..."`) are not modelled. An error carries its kind and, for a column mismatch, the row index.
