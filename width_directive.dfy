/** The `{<digits>}<rest>` width directive that both the title and the cells of
    the first body row may carry. It is the regular expression `{(\d+)}(.+)`
    applied with a match anchored at the start of the text and not at its end,
    written out by hand: `\d` is an ASCII digit here, and `.` is any character
    but a newline, so the rest stops at the first newline. */
module WidthDirective {
  import opened Wrappers
  import opened Decimal

  /** The longest run of digits at the start of `s` (what the greedy `\d+` takes). */
  function LeadingDigits(s: string): (d: string)
    ensures d <= s && AllDigits(d)
    ensures |d| < |s| ==> !IsDigit(s[|d|])
  {
    if s != [] && IsDigit(s[0]) then [s[0]] + LeadingDigits(s[1..]) else []
  }

  /** The longest prefix of `s` without a newline (what the greedy `.+` takes). */
  function LineHead(s: string): (h: string)
    ensures h <= s && '\n' !in h
    ensures |h| < |s| ==> s[|h|] == '\n'
  {
    if s != [] && s[0] != '\n' then [s[0]] + LineHead(s[1..]) else []
  }

  /** Matches the width directive at the start of `s`; on success gives the
      number and the text after the closing brace (up to the first newline). */
  function MatchWidthPrefix(s: string): (r: Option<(nat, string)>)
    ensures r.Some? ==>
      |s| >= 1 &&
      var d := LeadingDigits(s[1..]);
      |d| + 2 <= |s| &&
      s == "{" + d + "}" + s[|d| + 2..] &&
      d != [] &&
      r.value == (DigitsValue(d), LineHead(s[|d| + 2..])) &&
      r.value.1 != []
  {
    if s == [] || s[0] != '{' then None
    else
      var d := LeadingDigits(s[1..]);
      if d == [] || |d| + 1 >= |s| || s[|d| + 1] != '}' then None
      else
        var rest := LineHead(s[|d| + 2..]);
        if rest == [] then None else Some((DigitsValue(d), rest))
  }

  lemma {:induction false} LeadingDigitsOfDirective(d: string, t: string)
    requires AllDigits(d)
    ensures LeadingDigits(d + "}" + t) == d
  {
    if d != [] {
      assert (d + "}" + t)[1..] == d[1..] + "}" + t;
      LeadingDigitsOfDirective(d[1..], t);
    }
  }

  /** Any text of the form `{digits}tail` matches exactly when the tail has a
      first line that is not empty; the number is the value of the digits and
      the rest is that first line. With the soundness half stated on
      MatchWidthPrefix, this makes the matcher an if-and-only-if. */
  lemma MatchWidthPrefixComplete(d: string, t: string)
    requires d != [] && AllDigits(d)
    ensures MatchWidthPrefix("{" + d + "}" + t) ==
      if LineHead(t) == [] then None else Some((DigitsValue(d), LineHead(t)))
  {
    var s := "{" + d + "}" + t;
    assert s[1..] == d + "}" + t;
    LeadingDigitsOfDirective(d, t);
    assert s[|d| + 1] == '}';
    assert s[|d| + 2..] == t;
  }

  /** A directive written with the renderer's decimal format reads back as the same number. */
  lemma WidthDirectiveRoundTrip(n: nat, t: string)
    requires t != [] && '\n' !in t
    ensures MatchWidthPrefix("{" + DecimalString(n) + "}" + t) == Some((n, t))
  {
    MatchWidthPrefixComplete(DecimalString(n), t);
    DecimalRoundTrip(n);
    LineHeadWithoutNewline(t);
  }

  lemma {:induction false} LineHeadWithoutNewline(t: string)
    requires '\n' !in t
    ensures LineHead(t) == t
  {
    if t != [] {
      assert '\n' !in t[1..];
      LineHeadWithoutNewline(t[1..]);
    }
  }
}
