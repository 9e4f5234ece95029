/** Splitting the CSV grid into the title cell and the table body, and reading
    the optional width directive off the title. */
module TitleTable {
  import opened Wrappers
  import opened Decimal
  import opened WidthDirective

  /** Why a conversion stops. The first two are the index errors Python raises
      when the grid or its first row is empty; ColumnCountMismatch is the
      assertion on the body's shape; NoBodyRows and MissingTableWidth are the
      errors raised later in the pipeline (see Pipeline.Convert). */
  datatype ConversionError =
    | NoTitleRow
    | EmptyTitleRow
    | ColumnCountMismatch(line: nat)
    | NoBodyRows
    | MissingTableWidth

  /** Every body row (row 1 onwards) is as long as row 1. */
  predicate BodyIsRectangular(elems: seq<seq<string>>) {
    forall i :: 1 <= i < |elems| ==> |elems[i]| == |elems[1]|
  }

  /** Row `i` is the first whose length differs from the row before it. */
  predicate IsFirstMismatch(elems: seq<seq<string>>, i: nat) {
    2 <= i < |elems| && |elems[i]| != |elems[i - 1]| &&
    forall k :: 1 <= k < i ==> |elems[k]| == |elems[1]|
  }

  /** Returns the title cell and the body rows. The check on the title row is
      vacuous (it compares the whole row with the empty string), so a title
      row with several non-empty cells is accepted and its first cell, even an
      empty one, is the title. The body rows are compared with their
      predecessor one by one and the first row that differs is reported. */
  method SplitTitleAndTable(elems: seq<seq<string>>)
      returns (r: Result<(string, seq<seq<string>>), ConversionError>)
    ensures r == Err(NoTitleRow) <==> elems == []
    ensures r == Err(EmptyTitleRow) <==> elems != [] && elems[0] == []
    ensures elems != [] && elems[0] != [] && !BodyIsRectangular(elems) ==> r.Err? && r.error.ColumnCountMismatch?
    ensures r.Ok? <==> elems != [] && elems[0] != [] && BodyIsRectangular(elems)
    ensures r.Ok? ==> r.value == (elems[0][0], elems[1..])
    ensures r.Err? && r.error.ColumnCountMismatch? ==> IsFirstMismatch(elems, r.error.line)
    ensures r.Err? ==> r.error.NoTitleRow? || r.error.EmptyTitleRow? || r.error.ColumnCountMismatch?
  {
    if elems == [] {
      return Err(NoTitleRow);
    }
    if elems[0] == [] {
      return Err(EmptyTitleRow);
    }
    var titleRaw := elems[0][0];
    var previousLength := 0;
    for i := 1 to |elems|
      invariant i >= 2 ==> previousLength == |elems[1]|
      invariant forall k :: 1 <= k < i ==> |elems[k]| == |elems[1]|
    {
      if i == 1 {
        previousLength := |elems[i]|;
      } else {
        var length := |elems[i]|;
        if length != previousLength {
          return Err(ColumnCountMismatch(i));
        }
        previousLength := length;
      }
    }
    return Ok((titleRaw, elems[1..]));
  }

  /** The title text and the optional table width read from the title cell. */
  datatype ParsedTitle = ParsedTitle(title: string, width: Option<nat>)

  /** A title carrying a width directive loses it and gives its number; any
      other title is kept whole and has no width. */
  function ParseTitle(titleRaw: string): (p: ParsedTitle)
    ensures p.width.None? ==> p.title == titleRaw
    ensures p.width.Some? ==> p.title != [] && '\n' !in p.title
    ensures p.width.Some? <==> MatchWidthPrefix(titleRaw).Some?
    ensures MatchWidthPrefix(titleRaw).Some? ==>
      p == ParsedTitle(MatchWidthPrefix(titleRaw).value.1, Some(MatchWidthPrefix(titleRaw).value.0))
  {
    match MatchWidthPrefix(titleRaw)
    case Some((width, rest)) => ParsedTitle(rest, Some(width))
    case None => ParsedTitle(titleRaw, None)
  }

  /** `{N}title` gives the width N and the title, for any one-line, non-empty title. */
  lemma ParseTitleRoundTrip(n: nat, title: string)
    requires title != [] && '\n' !in title
    ensures ParseTitle("{" + DecimalString(n) + "}" + title) == ParsedTitle(title, Some(n))
  {
    WidthDirectiveRoundTrip(n, title);
  }

  /** A directive with nothing after it is not a directive: the title stays whole. */
  lemma ParseTitleBareDirective(d: string)
    requires d != [] && AllDigits(d)
    ensures ParseTitle("{" + d + "}") == ParsedTitle("{" + d + "}", None)
  {
    MatchWidthPrefixComplete(d, "");
  }

  lemma ParseTitleWithWidthExample(titleRaw: string)
    requires titleRaw == "{42}My Table"
    ensures ParseTitle(titleRaw) == ParsedTitle("My Table", Some(42))
  {
    DecimalOfTwoDigits(42);
    assert titleRaw == "{" + DecimalString(42) + "}" + "My Table";
    ParseTitleRoundTrip(42, "My Table");
  }

  lemma ParseTitleBareExample(titleRaw: string)
    requires titleRaw == "{42}"
    ensures ParseTitle(titleRaw) == ParsedTitle(titleRaw, None)
  {
    assert AllDigits("42");
    ParseTitleBareDirective("42");
    assert "{" + "42" + "}" == titleRaw;
  }
}
