/**
 * input/normalizer.py, the three passes that work line by line:
 * _remove_headers_footers, _normalize_whitespace and _preserve_structure.
 * Each splits the text on '\n', rewrites or drops lines, and joins with '\n'.
 */
module LinePasses {
  import opened Text
  import opened Cleaning

  // ---------------------------------------------------------------------------
  // _remove_headers_footers

  /**
   * A pattern letter lit (written in lower case) matches c under re.IGNORECASE:
   * c is lit or its ASCII capital, or one of the letters Python's matcher folds
   * onto it (dotted and dotless capital/small I onto 'i', long s onto 's').
   */
  predicate CaselessEq(c: char, lit: char)
  {
    || c == lit
    || (IsLower(lit) && c as int == lit as int - 32)
    || (lit == 'i' && (c == '\U{130}' || c == '\U{131}'))
    || (lit == 's' && c == '\U{17F}')
  }

  /** t spells lit, ignoring case. */
  predicate CaselessLiteral(t: string, lit: string)
  {
    |t| == |lit| && forall i :: 0 <= i < |t| ==> CaselessEq(t[i], lit[i])
  }

  /** The length of the run of digits at the front of s: what a greedy \d+ takes. */
  function DigitRun(s: string): (k: nat)
    ensures k <= |s|
    ensures forall i :: 0 <= i < k ==> IsDigit(s[i])
    ensures k < |s| ==> !IsDigit(s[k])
  {
    if s != [] && IsDigit(s[0]) then 1 + DigitRun(s[1..]) else 0
  }

  /** \d+ matching all of s. */
  predicate AllDigits(s: string)
  {
    s != [] && forall i :: 0 <= i < |s| ==> IsDigit(s[i])
  }

  const PagePrefix := "page "
  const OfInfix := " of "
  const ChapterPrefix := "chapter "
  const SectionPrefix := "section "
  const ContentsTitle := "table of contents"
  const IndexTitle := "index"

  /** The six header/footer patterns, anchored at both ends of the stripped line. */
  datatype Pattern =
    | PageNumber      // ^\d+\s*$
    | PageOfPages     // ^Page \d+ of \d+$
    | ChapterNumber   // ^Chapter \d+$
    | SectionNumber   // ^Section \d+$
    | TableOfContents // ^Table of Contents$
    | IndexHeading    // ^Index$

  /** The patterns in the order the source tries them. */
  const HeaderFooterPatterns: seq<Pattern> :=
    [PageNumber, PageOfPages, ChapterNumber, SectionNumber, TableOfContents, IndexHeading]

  /** A label followed by a number, like "Chapter 12". */
  predicate IsNumbered(t: string, prefix: string)
  {
    |prefix| <= |t| && CaselessLiteral(t[..|prefix|], prefix) && AllDigits(t[|prefix|..])
  }

  /** re.match(pattern, t, re.IGNORECASE) for a line t that holds no '\n'. */
  predicate Matches(p: Pattern, t: string)
  {
    match p
    case PageNumber => DigitRun(t) > 0 && AllSpace(t[DigitRun(t)..])
    case PageOfPages =>
      |PagePrefix| <= |t| && CaselessLiteral(t[..|PagePrefix|], PagePrefix)
      && var r := t[|PagePrefix|..];
      var k := DigitRun(r);
      k > 0 && k + |OfInfix| <= |r| && CaselessLiteral(r[k..k + |OfInfix|], OfInfix)
      && AllDigits(r[k + |OfInfix|..])
    case ChapterNumber => IsNumbered(t, ChapterPrefix)
    case SectionNumber => IsNumbered(t, SectionPrefix)
    case TableOfContents => CaselessLiteral(t, ContentsTitle)
    case IndexHeading => CaselessLiteral(t, IndexTitle)
  }

  predicate IsHeaderFooter(t: string)
  {
    exists p :: p in HeaderFooterPatterns && Matches(p, t)
  }

  /** The inner loop: try each pattern until one matches. */
  method MatchesAnyPattern(t: string) returns (found: bool)
    ensures found <==> IsHeaderFooter(t)
  {
    found := false;
    var j := 0;
    while j < |HeaderFooterPatterns|
      invariant 0 <= j <= |HeaderFooterPatterns|
      invariant !found
      invariant forall q :: q in HeaderFooterPatterns[..j] ==> !Matches(q, t)
    {
      if Matches(HeaderFooterPatterns[j], t) {
        found := true;
        break;
      }
      assert HeaderFooterPatterns[..j + 1] == HeaderFooterPatterns[..j] + [HeaderFooterPatterns[j]];
      j := j + 1;
    }
    if !found {
      assert HeaderFooterPatterns[..j] == HeaderFooterPatterns;
    }
  }

  /** What the loop appends for one line: "" for a blank line, nothing for a header or footer, else the stripped line. */
  function KeptFrom(line: string): seq<string>
  {
    var t := Strip(line);
    if t == [] then [""] else if IsHeaderFooter(t) then [] else [t]
  }

  /** The cleaned_lines list after the loop has seen `lines`. */
  function KeptLines(lines: seq<string>): seq<string>
  {
    if lines == [] then [] else KeptLines(lines[..|lines| - 1]) + KeptFrom(lines[|lines| - 1])
  }

  function HeadersFootersRemoved(text: string): string
  {
    Join(KeptLines(Split(text, '\n')), "\n")
  }

  method RemoveHeadersFooters(text: string) returns (out: string)
    ensures out == HeadersFootersRemoved(text)
  {
    var lines := Split(text, '\n');
    var cleanedLines: seq<string> := [];
    var i := 0;
    while i < |lines|
      invariant 0 <= i <= |lines|
      invariant cleanedLines == KeptLines(lines[..i])
    {
      assert lines[..i + 1][..i] == lines[..i];
      var line := Strip(lines[i]);
      if line == [] {
        cleanedLines := cleanedLines + [""];
      } else {
        var isHeaderFooter := MatchesAnyPattern(line);
        if !isHeaderFooter {
          cleanedLines := cleanedLines + [line];
        }
      }
      i := i + 1;
    }
    assert lines[..i] == lines;
    out := Join(cleanedLines, "\n");
  }

  /** A character that is not in s is not in its stripped form. */
  lemma StripKeepsOut(s: string, c: char)
    requires c !in s
    ensures c !in Strip(s)
  {
    StripSpec(s);
  }

  /** The pass keeps at most as many lines as it reads, and every line it keeps is stripped and empty or no header/footer. */
  lemma {:induction false} KeptLinesSpec(lines: seq<string>)
    ensures |KeptLines(lines)| <= |lines|
    ensures forall k :: 0 <= k < |KeptLines(lines)| ==>
      Trimmed(KeptLines(lines)[k]) && (KeptLines(lines)[k] == [] || !IsHeaderFooter(KeptLines(lines)[k]))
    decreases |lines|
  {
    if lines != [] {
      var init := lines[..|lines| - 1];
      KeptLinesSpec(init);
      var r := KeptLines(lines);
      var a := KeptLines(init);
      var b := KeptFrom(lines[|lines| - 1]);
      assert r == a + b;
      assert forall k :: 0 <= k < |r| ==> r[k] == if k < |a| then a[k] else b[k - |a|];
    }
  }

  /** The pass adds no newline to any line. */
  lemma {:induction false} KeptLinesNoNewline(lines: seq<string>)
    requires forall i :: 0 <= i < |lines| ==> '\n' !in lines[i]
    ensures forall k :: 0 <= k < |KeptLines(lines)| ==> '\n' !in KeptLines(lines)[k]
    decreases |lines|
  {
    if lines != [] {
      var init := lines[..|lines| - 1];
      KeptLinesNoNewline(init);
      StripKeepsOut(lines[|lines| - 1], '\n');
      var r := KeptLines(lines);
      var a := KeptLines(init);
      var b := KeptFrom(lines[|lines| - 1]);
      assert r == a + b;
      assert forall k :: 0 <= k < |r| ==> r[k] == if k < |a| then a[k] else b[k - |a|];
    }
  }

  /** Only headers and footers go: when there are none, the pass is [line.strip() for line in lines]. */
  lemma {:induction false} KeptLinesAll(lines: seq<string>)
    requires forall i :: 0 <= i < |lines| ==> !IsHeaderFooter(Strip(lines[i]))
    ensures KeptLines(lines) == StripEach(lines)
    decreases |lines|
  {
    if lines != [] {
      var init := lines[..|lines| - 1];
      var last := lines[|lines| - 1];
      KeptLinesAll(init);
      KeptFromOrdinary(last);
      StripEachSnoc(init, last);
      assert init + [last] == lines;
    }
  }

  /** A line that is no header or footer is kept, stripped. */
  lemma KeptFromOrdinary(line: string)
    requires !IsHeaderFooter(Strip(line))
    ensures KeptFrom(line) == [Strip(line)]
  {
  }

  lemma StripEachSnoc(lines: seq<string>, line: string)
    ensures StripEach(lines + [line]) == StripEach(lines) + [Strip(line)]
  {
  }

  /** Stripped lines that are empty or no header/footer come through unchanged. */
  lemma {:induction false} KeptLinesFixed(lines: seq<string>)
    requires forall k :: 0 <= k < |lines| ==> Trimmed(lines[k]) && (lines[k] == [] || !IsHeaderFooter(lines[k]))
    ensures KeptLines(lines) == lines
    decreases |lines|
  {
    if lines != [] {
      var init := lines[..|lines| - 1];
      KeptLinesFixed(init);
      assert init + [lines[|lines| - 1]] == lines;
    }
  }

  /** Removing headers and footers a second time changes nothing. */
  lemma HeadersFootersRemovedIdempotent(text: string)
    ensures HeadersFootersRemoved(HeadersFootersRemoved(text)) == HeadersFootersRemoved(text)
  {
    var lines := Split(text, '\n');
    var kept := KeptLines(lines);
    KeptLinesSpec(lines);
    KeptLinesNoNewline(lines);
    if kept == [] {
      assert HeadersFootersRemoved(text) == "";
      assert Split("", '\n') == [""];
      assert KeptLines([""]) == [] + KeptFrom("");
    } else {
      SplitJoin(kept, '\n');
      KeptLinesFixed(kept);
    }
  }

  // ---------------------------------------------------------------------------
  // _normalize_whitespace

  /** The class [ \t]. */
  predicate IsBlank(c: char)
  {
    c == ' ' || c == '\t'
  }

  /** [line.strip() for line in lines] */
  function StripEach(lines: seq<string>): (r: seq<string>)
    ensures |r| == |lines|
  {
    seq(|lines|, k requires 0 <= k < |lines| => Strip(lines[k]))
  }

  /** The list left once the leading-empty-line loop stops: a suffix, with only empty lines dropped. */
  function DropLeadingEmpty(lines: seq<string>): seq<string>
  {
    if lines != [] && lines[0] == [] then DropLeadingEmpty(lines[1..]) else lines
  }

  /** The list left once the trailing-empty-line loop stops. */
  function DropTrailingEmpty(lines: seq<string>): seq<string>
  {
    if lines != [] && lines[|lines| - 1] == [] then DropTrailingEmpty(lines[..|lines| - 1]) else lines
  }

  /** Dropping leading empty lines leaves a suffix that starts with a non-empty line, and only empty lines go. */
  lemma {:induction false} DropLeadingEmptySpec(lines: seq<string>)
    ensures var r := DropLeadingEmpty(lines);
      && |r| <= |lines| && r == lines[|lines| - |r|..]
      && (forall k :: 0 <= k < |lines| - |r| ==> lines[k] == [])
      && (r == [] || r[0] != [])
    decreases |lines|
  {
    if lines != [] && lines[0] == [] {
      DropLeadingEmptySpec(lines[1..]);
      var r := DropLeadingEmpty(lines);
      assert lines[1..][|lines| - 1 - |r|..] == lines[|lines| - |r|..];
      forall k | 0 <= k < |lines| - |r|
        ensures lines[k] == []
      {
        if k > 0 { assert lines[k] == lines[1..][k - 1]; }
      }
    }
  }

  /** Dropping trailing empty lines leaves a prefix that ends with a non-empty line, and only empty lines go. */
  lemma {:induction false} DropTrailingEmptySpec(lines: seq<string>)
    ensures var r := DropTrailingEmpty(lines);
      && |r| <= |lines| && r == lines[..|r|]
      && (forall k :: |r| <= k < |lines| ==> lines[k] == [])
      && (r == [] || r[|r| - 1] != [])
    decreases |lines|
  {
    if lines != [] && lines[|lines| - 1] == [] {
      var init := lines[..|lines| - 1];
      DropTrailingEmptySpec(init);
      var r := DropTrailingEmpty(lines);
      assert init[..|r|] == lines[..|r|];
      forall k | |r| <= k < |lines|
        ensures lines[k] == []
      {
        if k < |lines| - 1 { assert lines[k] == init[k]; }
      }
    }
  }

  /** The lines _normalize_whitespace joins. */
  function NormalizedLines(text: string): seq<string>
  {
    DropTrailingEmpty(DropLeadingEmpty(StripEach(Split(CollapseRuns(text, IsBlank), '\n'))))
  }

  function WhitespaceNormalized(text: string): string
  {
    Join(NormalizedLines(text), "\n")
  }

  method NormalizeWhitespace(text: string) returns (out: string)
    ensures out == WhitespaceNormalized(text)
  {
    var collapsed := CollapseRuns(text, IsBlank);
    var lines := StripEach(Split(collapsed, '\n'));
    ghost var stripped := lines;
    while |lines| > 0 && lines[0] == []
      invariant DropLeadingEmpty(lines) == DropLeadingEmpty(stripped)
      decreases |lines|
    {
      lines := lines[1..];
    }
    ghost var leading := lines;
    while |lines| > 0 && lines[|lines| - 1] == []
      invariant DropTrailingEmpty(lines) == DropTrailingEmpty(leading)
      decreases |lines|
    {
      lines := lines[..|lines| - 1];
    }
    out := Join(lines, "\n");
  }

  /** Single spacing survives splitting into pieces. */
  lemma {:induction false} SplitSingleSpaced(s: string, sep: char, cls: char -> bool)
    requires SingleSpaced(s, cls)
    ensures forall k :: 0 <= k < |Split(s, sep)| ==> SingleSpaced(Split(s, sep)[k], cls)
    decreases |s|
  {
    if s != [] {
      SingleSpacedSlice(s, 1, |s|, cls);
      SplitSingleSpaced(s[1..], sep, cls);
      if s[0] != sep {
        var rest := Split(s[1..], sep);
        SplitFirstPrefix(s[1..], sep);
        assert [s[0]] + rest[0] == s[..1 + |rest[0]|];
        SingleSpacedSlice(s, 0, 1 + |rest[0]|, cls);
        assert Split(s, sep) == [[s[0]] + rest[0]] + rest[1..];
      }
    }
  }

  /** Two single-spaced texts that do not meet in two class characters make a single-spaced text. */
  lemma SingleSpacedConcat(a: string, b: string, cls: char -> bool)
    requires SingleSpaced(a, cls) && SingleSpaced(b, cls)
    requires a == [] || b == [] || !cls(a[|a| - 1]) || !cls(b[0])
    ensures SingleSpaced(a + b, cls)
  {
    var r := a + b;
    forall i | 0 <= i < |r|
      ensures cls(r[i]) ==> r[i] == ' '
    {
      if i < |a| { assert r[i] == a[i]; } else { assert r[i] == b[i - |a|]; }
    }
    forall i | 0 <= i < |r| - 1
      ensures !(cls(r[i]) && cls(r[i + 1]))
    {
      if i + 1 < |a| {
        assert r[i] == a[i] && r[i + 1] == a[i + 1];
      } else if i >= |a| {
        assert r[i] == b[i - |a|] && r[i + 1] == b[i - |a| + 1];
      } else {
        assert r[i] == a[|a| - 1] && r[i + 1] == b[0];
      }
    }
  }

  /** Joining single-spaced lines with a newline outside the class keeps single spacing. */
  lemma {:induction false} JoinSingleSpaced(parts: seq<string>, cls: char -> bool)
    requires !cls('\n')
    requires forall k :: 0 <= k < |parts| ==> SingleSpaced(parts[k], cls)
    ensures SingleSpaced(Join(parts, "\n"), cls)
    decreases |parts|
  {
    if |parts| > 1 {
      JoinSingleSpaced(parts[1..], cls);
      SingleSpacedConcat(parts[0], "\n", cls);
      SingleSpacedConcat(parts[0] + "\n", Join(parts[1..], "\n"), cls);
    }
  }

  /** A join starts with its first part and ends with its last. */
  lemma {:induction false} JoinEnds(parts: seq<string>, sep: string)
    requires |parts| >= 1
    ensures var j := Join(parts, sep); var last := parts[|parts| - 1];
      |parts[0]| <= |j| && j[..|parts[0]|] == parts[0]
      && |last| <= |j| && j[|j| - |last|..] == last
    decreases |parts|
  {
    if |parts| > 1 {
      JoinEnds(parts[1..], sep);
      var rest := Join(parts[1..], sep);
      assert Join(parts, sep) == parts[0] + (sep + rest);
      assert parts[1..][|parts[1..]| - 1] == parts[|parts| - 1];
    }
  }

  lemma JoinTrimmed(parts: seq<string>, sep: string)
    requires |parts| >= 1 && parts[0] != [] && parts[|parts| - 1] != []
    requires Trimmed(parts[0]) && Trimmed(parts[|parts| - 1])
    ensures Trimmed(Join(parts, sep)) && Join(parts, sep) != []
  {
    JoinEnds(parts, sep);
    var j := Join(parts, sep);
    var last := parts[|parts| - 1];
    assert j[0] == j[..|parts[0]|][0] == parts[0][0];
    assert j[|j| - 1] == j[|j| - |last|..][|last| - 1] == last[|last| - 1];
  }

  /** What every line _normalize_whitespace joins looks like. */
  predicate CleanLine(t: string)
  {
    Trimmed(t) && '\n' !in t && SingleSpaced(t, IsBlank)
  }

  /** The stripped pieces of a text without tabs or double blanks are clean lines. */
  lemma StrippedPiecesClean(c: string)
    requires SingleSpaced(c, IsBlank)
    ensures forall k :: 0 <= k < |Split(c, '\n')| ==> CleanLine(StripEach(Split(c, '\n'))[k])
  {
    var pieces := Split(c, '\n');
    SplitSingleSpaced(c, '\n', IsBlank);
    forall k | 0 <= k < |pieces|
      ensures CleanLine(StripEach(pieces)[k])
    {
      var p := pieces[k];
      StripKeepsOut(p, '\n');
      StripSpec(p);
      SingleSpacedSlice(p, StripStart(p), StripStart(p) + |Strip(p)|, IsBlank);
    }
  }

  /** Dropping the empty lines at both ends keeps any property every line has, and leaves non-empty ends. */
  lemma DropEmptyEnds(lines: seq<string>, P: string -> bool)
    requires forall k :: 0 <= k < |lines| ==> P(lines[k])
    ensures var ls := DropTrailingEmpty(DropLeadingEmpty(lines));
      && (forall k :: 0 <= k < |ls| ==> P(ls[k]))
      && (ls == [] || (ls[0] != [] && ls[|ls| - 1] != []))
  {
    var lead := DropLeadingEmpty(lines);
    DropLeadingEmptySpec(lines);
    assert forall k :: 0 <= k < |lead| ==> lead[k] == lines[|lines| - |lead| + k];
    var ls := DropTrailingEmpty(lead);
    DropTrailingEmptySpec(lead);
    assert forall k :: 0 <= k < |ls| ==> ls[k] == lead[k];
  }

  /** The lines are stripped, hold no newline and blanks only as single spaces; the first and last are not empty. */
  lemma NormalizedLinesSpec(text: string)
    ensures var ls := NormalizedLines(text);
      && (forall k :: 0 <= k < |ls| ==> CleanLine(ls[k]))
      && (ls == [] || (ls[0] != [] && ls[|ls| - 1] != []))
  {
    var c := CollapseRuns(text, IsBlank);
    CollapseOnlySpaces(text, IsBlank);
    CollapseNoDoubleSpace(text, IsBlank);
    StrippedPiecesClean(c);
    DropEmptyEnds(StripEach(Split(c, '\n')), CleanLine);
  }

  /**
   * _normalize_whitespace's output: no tab and no two blanks in a row, no
   * whitespace at either end, and split on '\n' it gives back its lines, each
   * stripped, the first and last not empty.
   */
  lemma WhitespaceNormalizedSpec(text: string)
    ensures var out := WhitespaceNormalized(text);
      && SingleSpaced(out, IsBlank) && Trimmed(out)
      && (out == [] <==> NormalizedLines(text) == [])
      && (out != [] ==> Split(out, '\n') == NormalizedLines(text))
  {
    var ls := NormalizedLines(text);
    NormalizedLinesSpec(text);
    JoinSingleSpaced(ls, IsBlank);
    if ls != [] {
      JoinTrimmed(ls, "\n");
      SplitJoin(ls, '\n');
    }
  }

  /** Normalizing whitespace a second time changes nothing. */
  lemma WhitespaceNormalizedIdempotent(text: string)
    ensures WhitespaceNormalized(WhitespaceNormalized(text)) == WhitespaceNormalized(text)
  {
    var out := WhitespaceNormalized(text);
    var ls := NormalizedLines(text);
    WhitespaceNormalizedSpec(text);
    NormalizedLinesSpec(text);
    CollapseFixed(out, IsBlank);
    if out == [] {
      assert Split("", '\n') == [""];
      assert StripEach([""]) == [""];
      assert DropLeadingEmpty([""]) == [];
    } else {
      assert StripEach(ls) == ls;
      assert DropLeadingEmpty(ls) == ls;
      assert DropTrailingEmpty(ls) == ls;
    }
  }

  // ---------------------------------------------------------------------------
  // _preserve_structure

  /** re.match(r'^[A-Z][A-Z\s]{3,}$', t) for a line t that holds no '\n'. */
  predicate IsCapsHeader(t: string)
  {
    |t| >= 4 && IsUpper(t[0]) && forall i :: 1 <= i < |t| ==> IsUpper(t[i]) || IsSpace(t[i])
  }

  const HeaderMark := "HEADER: "

  /** One line of the output: an all-capitals heading is marked, any other line is kept as it is. */
  function StructuredLine(line: string): string
  {
    var t := Strip(line);
    if IsCapsHeader(t) then HeaderMark + t else line
  }

  /** The structured_lines list after the loop has seen `lines`. */
  function StructuredLines(lines: seq<string>): (r: seq<string>)
    ensures |r| == |lines|
  {
    if lines == [] then [] else StructuredLines(lines[..|lines| - 1]) + [StructuredLine(lines[|lines| - 1])]
  }

  function StructurePreserved(text: string): string
  {
    Join(StructuredLines(Split(text, '\n')), "\n")
  }

  method PreserveStructure(text: string) returns (out: string)
    ensures out == StructurePreserved(text)
  {
    var lines := Split(text, '\n');
    var structuredLines: seq<string> := [];
    var i := 0;
    while i < |lines|
      invariant 0 <= i <= |lines|
      invariant structuredLines == StructuredLines(lines[..i])
    {
      assert lines[..i + 1][..i] == lines[..i];
      var line := Strip(lines[i]);
      if IsCapsHeader(line) {
        structuredLines := structuredLines + [HeaderMark + line];
      } else {
        structuredLines := structuredLines + [lines[i]];
      }
      i := i + 1;
    }
    assert lines[..i] == lines;
    out := Join(structuredLines, "\n");
  }

  /**
   * The k-th output line is `HEADER: ` followed by the stripped k-th input line when that
   * stripped line is an all-capitals heading, and the k-th input line unchanged otherwise.
   */
  lemma {:induction false} StructuredLinesAt(lines: seq<string>, k: nat)
    requires k < |lines|
    ensures StructuredLines(lines)[k] == StructuredLine(lines[k])
    ensures IsCapsHeader(Strip(lines[k])) ==> StructuredLines(lines)[k] == HeaderMark + Strip(lines[k])
    ensures !IsCapsHeader(Strip(lines[k])) ==> StructuredLines(lines)[k] == lines[k]
    decreases |lines|
  {
    if k < |lines| - 1 {
      StructuredLinesAt(lines[..|lines| - 1], k);
    }
  }

  /** A marked or kept line is no longer an all-capitals heading: the ':' of the mark is neither a capital nor a space. */
  lemma StructuredLineFixed(line: string)
    ensures StructuredLine(StructuredLine(line)) == StructuredLine(line)
    ensures '\n' !in line ==> '\n' !in StructuredLine(line)
  {
    var t := Strip(line);
    if '\n' !in line {
      StripKeepsOut(line, '\n');
    }
    if IsCapsHeader(t) {
      var m := HeaderMark + t;
      assert Trimmed(m) by {
        assert m[0] == 'H';
        assert m[|m| - 1] == t[|t| - 1];
      }
      assert Strip(m) == m;
      assert m[6] == ':';
      assert !IsCapsHeader(m);
    }
  }

  /**
   * _preserve_structure keeps the number of lines and adds no newline, and a
   * second run changes nothing.
   */
  lemma StructurePreservedSpec(text: string)
    ensures |Split(StructurePreserved(text), '\n')| == |Split(text, '\n')|
    ensures StructurePreserved(StructurePreserved(text)) == StructurePreserved(text)
  {
    var lines := Split(text, '\n');
    var ls := StructuredLines(lines);
    forall k | 0 <= k < |ls|
      ensures '\n' !in ls[k] && StructuredLine(ls[k]) == ls[k]
    {
      StructuredLinesAt(lines, k);
      StructuredLineFixed(lines[k]);
    }
    SplitJoin(ls, '\n');
    forall k | 0 <= k < |ls|
      ensures StructuredLines(ls)[k] == ls[k]
    {
      StructuredLinesAt(ls, k);
    }
    assert StructuredLines(ls) == ls;
  }
}
