/**
 * Argument clean-up: surrounding whitespace, every surrounding double
 * quote, then every surrounding single quote, then one leading `>` (left
 * behind by drag-and-drop or shell redirection), then whitespace again.
 */
module Sanitizer {
  import opened Strings

  const DOUBLE_QUOTE: set<char> := {'"'}
  const SINGLE_QUOTE: set<char> := {'\''}

  function SanitizeArgument(argument: string): (r: string)
    ensures argument == "" ==> r == ""
    ensures |r| <= |argument|
    ensures Trimmed(r, WHITESPACE)
  {
    if argument == "" then ""
    else Strip(DropAngleBracket(StripQuotes(Strip(argument, WHITESPACE))), WHITESPACE)
  }

  /** `.strip('"').strip("'")` */
  function StripQuotes(s: string): string
  {
    Strip(Strip(s, DOUBLE_QUOTE), SINGLE_QUOTE)
  }

  /** Removes one leading `>`, if there is one. */
  function DropAngleBracket(s: string): (r: string)
    ensures |r| <= |s|
  {
    if StartsWith(s, ">") then s[1..] else s
  }

  /** An argument that needs no cleaning: it neither starts nor ends with whitespace or a quote, nor starts with `>`. */
  predicate IsPlainPath(p: string)
  {
    && p != []
    && p[0] !in WHITESPACE + DOUBLE_QUOTE + SINGLE_QUOTE + {'>'}
    && p[|p| - 1] !in WHITESPACE + DOUBLE_QUOTE + SINGLE_QUOTE
  }

  /** A plain path is returned unchanged. */
  lemma PlainPathUnchanged(p: string)
    requires IsPlainPath(p)
    ensures SanitizeArgument(p) == p
  {
    StripTrimmed(p, WHITESPACE);
    StripTrimmed(p, DOUBLE_QUOTE);
    StripTrimmed(p, SINGLE_QUOTE);
    PlainHasNoAngleBracket(p);
  }

  lemma PlainHasNoAngleBracket(p: string)
    requires IsPlainPath(p)
    ensures DropAngleBracket(p) == p
  {
    assert p[..1] != ">" by { assert p[..1][0] == p[0]; }
  }

  /** Stripping the quote layers `dq1 + sq1 + p + sq2 + dq2` around a plain path leaves the path. */
  lemma QuotesOf(p: string, dq1: string, sq1: string, sq2: string, dq2: string)
    requires IsPlainPath(p)
    requires AllIn(dq1, DOUBLE_QUOTE) && AllIn(dq2, DOUBLE_QUOTE)
    requires AllIn(sq1, SINGLE_QUOTE) && AllIn(sq2, SINGLE_QUOTE)
    ensures StripQuotes(dq1 + sq1 + p + sq2 + dq2) == p
  {
    var inner := sq1 + p + sq2;
    assert dq1 + sq1 + p + sq2 + dq2 == dq1 + inner + dq2;
    assert inner[0] !in DOUBLE_QUOTE by {
      if sq1 != [] { assert inner[0] == sq1[0]; } else { assert inner[0] == p[0]; }
    }
    assert inner[|inner| - 1] !in DOUBLE_QUOTE by {
      if sq2 != [] { assert inner[|inner| - 1] == sq2[|sq2| - 1]; } else { assert inner[|inner| - 1] == p[|p| - 1]; }
    }
    StripOf(dq1, inner, dq2, DOUBLE_QUOTE);
    StripOf(sq1, p, sq2, SINGLE_QUOTE);
  }

  /**
   * Whitespace, then any number of double quotes, then any number of single
   * quotes around a plain path are all removed: `  "'C:\dir'"  ` gives `C:\dir`.
   */
  lemma QuotesAndBlanksRemoved(p: string, ws1: string, dq1: string, sq1: string, sq2: string, dq2: string, ws2: string)
    requires IsPlainPath(p)
    requires AllIn(ws1, WHITESPACE) && AllIn(ws2, WHITESPACE)
    requires AllIn(dq1, DOUBLE_QUOTE) && AllIn(dq2, DOUBLE_QUOTE)
    requires AllIn(sq1, SINGLE_QUOTE) && AllIn(sq2, SINGLE_QUOTE)
    ensures SanitizeArgument(ws1 + dq1 + sq1 + p + sq2 + dq2 + ws2) == p
  {
    var middle := dq1 + sq1 + p + sq2 + dq2;
    var argument := ws1 + dq1 + sq1 + p + sq2 + dq2 + ws2;
    assert argument == ws1 + middle + ws2;
    QuotedIsTrimmed(p, dq1, sq1, sq2, dq2);
    StripOf(ws1, middle, ws2, WHITESPACE);
    QuotesOf(p, dq1, sq1, sq2, dq2);
    PlainHasNoAngleBracket(p);
    StripTrimmed(p, WHITESPACE);
    assert argument != "" by { assert |argument| >= |p|; }
  }

  /** Quotes around a plain path neither start nor end with whitespace. */
  lemma QuotedIsTrimmed(p: string, dq1: string, sq1: string, sq2: string, dq2: string)
    requires IsPlainPath(p)
    requires AllIn(dq1, DOUBLE_QUOTE) && AllIn(dq2, DOUBLE_QUOTE)
    requires AllIn(sq1, SINGLE_QUOTE) && AllIn(sq2, SINGLE_QUOTE)
    ensures Trimmed(dq1 + sq1 + p + sq2 + dq2, WHITESPACE)
  {
    var middle := dq1 + sq1 + p + sq2 + dq2;
    assert middle != [];
    assert middle[0] !in WHITESPACE by {
      if dq1 != [] { assert middle[0] == dq1[0]; }
      else if sq1 != [] { assert middle[0] == sq1[0]; }
      else { assert middle[0] == p[0]; }
    }
    assert middle[|middle| - 1] !in WHITESPACE by {
      if dq2 != [] { assert middle[|middle| - 1] == dq2[|dq2| - 1]; }
      else if sq2 != [] { assert middle[|middle| - 1] == sq2[|sq2| - 1]; }
      else { assert middle[|middle| - 1] == p[|p| - 1]; }
    }
  }

  /** The double quotes a drag-and-drop puts around a path are removed. */
  lemma DoubleQuotedPlainPath(p: string)
    requires IsPlainPath(p)
    ensures SanitizeArgument("\"" + p + "\"") == p
  {
    var q := "\"";
    assert "" + q == q;
    assert q + "" == q;
    assert q + p + "" == q + p;
    assert q + p + q + "" == q + p + q;
    QuotesAndBlanksRemoved(p, "", q, "", "", q, "");
  }

  /** A string that starts with `>` and ends like a plain path survives the whitespace stage... */
  lemma AngleKeepsBlanks(s: string)
    requires |s| >= 2 && s[0] == '>' && s[|s| - 1] !in WHITESPACE
    ensures Strip(s, WHITESPACE) == s
  {
    StripTrimmed(s, WHITESPACE);
  }

  /** ...and the quote stage... */
  lemma AngleKeepsQuotes(s: string)
    requires |s| >= 2 && s[0] == '>' && s[|s| - 1] !in DOUBLE_QUOTE + SINGLE_QUOTE
    ensures StripQuotes(s) == s
  {
    StripTrimmed(s, DOUBLE_QUOTE);
    StripTrimmed(s, SINGLE_QUOTE);
  }

  /** ...and then loses exactly its first character. */
  lemma AngleDropped(s: string)
    requires |s| >= 2 && s[0] == '>'
    ensures DropAngleBracket(s) == s[1..]
  {
    assert s[..1] == ">";
  }

  /** A leading `>` is removed from anything that carries no other decoration, in particular from a plain path. */
  lemma AngleBracketRemoved(q: string)
    requires q != [] && q[0] !in WHITESPACE && q[|q| - 1] !in WHITESPACE + DOUBLE_QUOTE + SINGLE_QUOTE
    ensures SanitizeArgument(">" + q) == q
  {
    var one := ">" + q;
    var last := q[|q| - 1];
    assert last !in WHITESPACE && last !in DOUBLE_QUOTE + SINGLE_QUOTE;
    assert one[|one| - 1] == last;
    AngleKeepsBlanks(one);
    AngleKeepsQuotes(one);
    AngleDropped(one);
    assert one[1..] == q;
    StripTrimmed(q, WHITESPACE);
  }

  /** Only one `>` is removed: `>>p` gives `>p`. */
  lemma OnlyOneAngleBracketRemoved(p: string)
    requires IsPlainPath(p)
    ensures SanitizeArgument(">>" + p) == ">" + p
  {
    var one := ">" + p;
    assert ">" + one == ">>" + p;
    assert one[|one| - 1] == p[|p| - 1];
    AngleBracketRemoved(one);
  }

  /** An argument of only whitespace sanitises to "" and is skipped by the expander. */
  lemma BlankArgumentIsEmpty(argument: string)
    requires AllIn(argument, WHITESPACE)
    ensures SanitizeArgument(argument) == ""
  {
  }
}
