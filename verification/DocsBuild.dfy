// How the generator fits a block to where it is included, and what its includes promise.

module DocsBuild {
  import opened Options
  import opened DocsLines
  import opened DocsShift
  import opened DocsText
  import opened DocsIncludes
  import opened DocsMarkers
  import opened DocsLeftovers
  import opened DocsByLine

  // --- Retitling ---

  // Where the run of slug characters that ends a text starts.
  function SlugStart(s: string): (n: nat)
    ensures n <= |s|
  {
    if s != "" && IsSlugChar(s[|s| - 1]) then SlugStart(s[..|s| - 1]) else |s|
  }

  // The {#anchor} at the end of a stripped heading, with the space before it.
  function AnchorSuffix(s: string): string {
    if s == "" || s[|s| - 1] != '}' then ""
    else
      var inner := s[..|s| - 1];
      var k := SlugStart(inner);
      if k < |inner| && k >= 2 && inner[k - 1] == '#' && inner[k - 2] == '{' then " " + s[k - 2..] else ""
  }

  function RetitledLine(line: string, title: string): string {
    Repeat(Hashes(Strip(line))) + " " + title + AnchorSuffix(Strip(line))
  }

  // The first line that reads as a heading, fenced or not.
  function FirstHeading(lines: seq<string>): (i: nat)
    ensures i <= |lines|
  {
    if lines == [] || KindOf(lines[0]).Heading? then 0 else 1 + FirstHeading(lines[1..])
  }

  function Retitled(text: string, title: string): string {
    var lines := Split(text);
    var i := FirstHeading(lines);
    Join(if i < |lines| then lines[i := RetitledLine(lines[i], title)] else lines)
  }

  method RetitleFirstHeading(text: string, title: string) returns (r: string)
    ensures r == Retitled(text, title)
  {
    var lines := Split(text);
    ghost var all := lines;
    var i := 0;
    while i < |lines|
      invariant 0 <= i <= |lines| && lines == all
      invariant FirstHeading(all) == i + FirstHeading(all[i..])
    {
      var line := lines[i];
      assert all[i..][1..] == all[i + 1..];
      if KindOf(line).Heading? {
        lines := lines[i := RetitledLine(line, title)];
        return Join(lines);
      }
      i := i + 1;
    }
    r := Join(lines);
  }

  lemma {:induction false} FirstHeadingIsFirst(lines: seq<string>)
    ensures FirstHeading(lines) < |lines| ==> KindOf(lines[FirstHeading(lines)]).Heading?
    ensures forall i :: 0 <= i < FirstHeading(lines) ==> !KindOf(lines[i]).Heading?
    decreases |lines|
  {
    if lines != [] && !KindOf(lines[0]).Heading? { FirstHeadingIsFirst(lines[1..]); }
  }

  // Whether the line after these is fenced, when the first is or is not.
  predicate FencedAfter(lines: seq<string>, inFence: bool) {
    if lines == [] then inFence else FencedAfter(lines[1..], inFence != KindOf(lines[0]).Fence?)
  }

  // The line retitled counts as no heading exactly when it lies in a fence.
  lemma {:induction false} RetitledLineMayBeFenced(lines: seq<string>, inFence: bool)
    requires FirstHeading(lines) < |lines|
    ensures var i := FirstHeading(lines);
            Levels(lines, inFence, MARKDOWN)[i] == 0 <==> FencedAfter(lines[..i], inFence)
    decreases |lines|
  {
    var i := FirstHeading(lines);
    var after := inFence != KindOf(lines[0]).Fence?;
    if i > 0 {
      RetitledLineMayBeFenced(lines[1..], after);
      assert Levels(lines, inFence, MARKDOWN)[1..] == Levels(lines[1..], after, MARKDOWN);
      assert lines[..i][1..] == lines[1..][..i - 1];
    } else {
      assert lines[..i] == [];
    }
  }

  lemma {:induction false} LevelsAreHeadings(lines: seq<string>, inFence: bool, j: nat)
    requires j < |lines| && Levels(lines, inFence, MARKDOWN)[j] > 0
    ensures KindOf(lines[j]).Heading?
    decreases j
  {
    if j > 0 {
      var after := inFence != KindOf(lines[0]).Fence?;
      assert Levels(lines, inFence, MARKDOWN)[j] == Levels(lines[1..], after, MARKDOWN)[j - 1];
      LevelsAreHeadings(lines[1..], after, j - 1);
    }
  }

  // A line in a fence that would be a heading outside one.
  predicate FencedHeading(lines: seq<string>, k: nat) {
    k < |lines| && KindOf(lines[k]).Heading? && FencedAfter(lines[..k], false)
  }

  ghost predicate BeforeEveryHeading(lines: seq<string>, k: nat) {
    forall j :: 0 <= j < |lines| && Levels(lines, false, MARKDOWN)[j] > 0 ==> k < j
  }

  lemma HeadingsComeLater(lines: seq<string>)
    requires FirstHeading(lines) < |lines|
    ensures forall j :: 0 <= j < |lines| && Levels(lines, false, MARKDOWN)[j] > 0 ==> FirstHeading(lines) <= j
  {
    FirstHeadingIsFirst(lines);
    forall j | 0 <= j < |lines| && Levels(lines, false, MARKDOWN)[j] > 0
      ensures FirstHeading(lines) <= j
    {
      LevelsAreHeadings(lines, false, j);
    }
  }

  /** Retitling knows no fences: it renames a line of fenced code exactly when one that looks
      like a heading comes before every heading there is. */
  lemma RetitlingMayHitFencedCode(lines: seq<string>)
    requires FirstHeading(lines) < |lines|
    ensures Levels(lines, false, MARKDOWN)[FirstHeading(lines)] == 0 <==>
            exists k: nat :: FencedHeading(lines, k) && BeforeEveryHeading(lines, k)
  {
    var i := FirstHeading(lines);
    FirstHeadingIsFirst(lines);
    RetitledLineMayBeFenced(lines, false);
    HeadingsComeLater(lines);
    if Levels(lines, false, MARKDOWN)[i] == 0 {
      assert FencedHeading(lines, i) && BeforeEveryHeading(lines, i);
    } else {
      forall k: nat | FencedHeading(lines, k)
        ensures !BeforeEveryHeading(lines, k)
      {
        assert i <= k;
      }
    }
  }

  const FENCED_LINES := ["```", "# set up", "```", "# Guide"]

  lemma FencedLevels()
    ensures Levels(FENCED_LINES, false, MARKDOWN) == [0, 0, 0, 1] && FirstHeading(FENCED_LINES) == 1
  {
    TrimmedStays("```");
    TrimmedStays("# set up");
    TrimmedStays("# Guide");
    var second, third, last := ["# set up", "```", "# Guide"], ["```", "# Guide"], ["# Guide"];
    assert FENCED_LINES[1..] == second && second[1..] == third && third[1..] == last && last[1..] == [];
    assert Levels(last, false, MARKDOWN) == [1];
    assert Levels(third, true, MARKDOWN) == [0, 1];
    assert Levels(second, true, MARKDOWN) == [0, 0, 1];
  }

  lemma CommentRetitled(title: string)
    ensures RetitledLine("# set up", title) == "# " + title
  {
    TrimmedStays("# set up");
    Repeats();
  }

  /** So the comment in this block is renamed, and its title is kept. */
  lemma CommentIsRetitled(title: string)
    ensures Retitled(Join(FENCED_LINES), title) == Join(["```", "# " + title, "```", "# Guide"])
    ensures exists k: nat :: FencedHeading(FENCED_LINES, k) && BeforeEveryHeading(FENCED_LINES, k)
  {
    FencedLevels();
    RetitlingMayHitFencedCode(FENCED_LINES);
    SplittingUndoesJoining(FENCED_LINES);
    CommentRetitled(title);
    assert FENCED_LINES[1 := "# " + title] == ["```", "# " + title, "```", "# Guide"];
  }

  // --- Fitting a block in ---

  function StripNewlinesLeft(s: string): string { if s != "" && s[0] == '\n' then StripNewlinesLeft(s[1..]) else s }

  function StripNewlinesRight(s: string): string {
    if s != "" && s[|s| - 1] == '\n' then StripNewlinesRight(s[..|s| - 1]) else s
  }

  function StrippedBody(body: string): string { StripNewlinesRight(StripNewlinesLeft(body)) }

  function ShiftedBody(body: string, marker: Marker): string {
    if marker.level.Some? then Shifted(StrippedBody(body), marker.level.value, MARKDOWN) else StrippedBody(body)
  }

  function Adjusted(body: string, marker: Marker): string {
    if marker.heading != "" then Retitled(ShiftedBody(body, marker), marker.heading) else ShiftedBody(body, marker)
  }

  const READER: Reader := (MarkersAreRead(Adjusted); MatcherOf(Adjusted))

  // --- What fitting does to the lines ---

  lemma {:induction false} StripSeesTheFirstMark(s: string)
    requires DropBlanks(s) != "" && !IsSpace(DropBlanks(s)[0])
    ensures StripLeft(s) == DropBlanks(s)
    decreases |s|
  {
    if IsBlank(s[0]) { StripSeesTheFirstMark(s[1..]); }
  }

  lemma MarkersStartWithAngle(line: string)
    requires Opening(line).Some?
    ensures DropBlanks(line) != "" && DropBlanks(line)[0] == '<'
  {
    assert DropBlanks(line)[..4] == "<!--";
    assert DropBlanks(line)[..4][0] == '<';
  }

  lemma HeadingIsNoMarker(line: string)
    requires KindOf(line).Heading?
    ensures Opening(line).None?
  {
    if Opening(line).Some? {
      MarkersStartWithAngle(line);
      StripSeesTheFirstMark(line);
      StripRightTrims(StripLeft(line));
    }
  }

  lemma HashesAreNoMarker(level: nat, rest: string)
    requires level > 0
    ensures Opening(Repeat(level) + rest).None?
  {
    var line := Repeat(level) + rest;
    assert line[0] == '#';
    assert DropBlanks(line) == line;
    if Opening(line).Some? { MarkersStartWithAngle(line); }
  }

  // Lines that are equal or start no marker.
  predicate SameReading(a: string, b: string) { a == b || (Opening(a).None? && Opening(b).None?) }

  predicate SameLines(a: seq<string>, b: seq<string>) { |a| == |b| && forall i :: 0 <= i < |a| ==> SameReading(a[i], b[i]) }

  lemma {:induction false} SameLinesRead(a: seq<string>, b: seq<string>)
    requires SameLines(a, b)
    ensures Markers(a, READER) == Markers(b, READER)
    ensures ClosedLines(b, READER) ==> ClosedLines(a, READER)
    decreases |a|
  {
    if a != [] {
      assert SameReading(a[0], b[0]);
      assert SameLines(a[1..], b[1..]) by {
        assert forall i :: 0 <= i < |a| - 1 ==> a[1..][i] == a[i + 1] && b[1..][i] == b[i + 1];
      }
      SameLinesRead(a[1..], b[1..]);
      if ClosedLines(b, READER) {
        assert b[0] in b && forall line <- b[1..] :: line in b;
        assert a == [a[0]] + a[1..];
      }
    }
  }

  lemma {:induction false} MarkersOfTwo(a: seq<string>, b: seq<string>)
    ensures Markers(a + b, READER) == Markers(a, READER) + Markers(b, READER)
    decreases |a|
  {
    if a == [] {
      assert a + b == b;
    } else {
      assert (a + b)[0] == a[0] && (a + b)[1..] == a[1..] + b;
      MarkersOfTwo(a[1..], b);
    }
  }

  lemma EmptyLineHoldsNoMarker()
    ensures Markers([""], READER) == []
  {
    assert [""][1..] == [];
    assert Opening("").None?;
  }

  // The same markers, and no line that was not there.
  predicate Thinned(a: seq<string>, b: seq<string>) {
    Markers(a, READER) == Markers(b, READER) && forall line <- a :: line in b
  }

  lemma {:induction false} LeadingNewlinesHoldNoMarker(s: string)
    ensures Thinned(Split(StripNewlinesLeft(s)), Split(s))
    decreases |s|
  {
    if s != "" && s[0] == '\n' {
      LeadingNewlinesHoldNoMarker(s[1..]);
      assert Split(s) == [""] + Split(s[1..]);
      MarkersOfTwo([""], Split(s[1..]));
      EmptyLineHoldsNoMarker();
    }
  }

  lemma {:induction false} TrailingNewlinesHoldNoMarker(s: string)
    ensures Thinned(Split(StripNewlinesRight(s)), Split(s))
    decreases |s|
  {
    if s != "" && s[|s| - 1] == '\n' {
      var front := s[..|s| - 1];
      TrailingNewlinesHoldNoMarker(front);
      assert s == front + "\n" + "";
      SplittingTwo(front, "");
      MarkersOfTwo(Split(front), [""]);
      EmptyLineHoldsNoMarker();
    }
  }

  lemma ReleveledLineHoldsNoMarker(line: string, level: nat)
    requires KindOf(line).Heading? && 1 <= level <= 6
    ensures Opening(line).None? && Opening(Relevel(line, level)).None?
  {
    HeadingIsNoMarker(line);
    ReleveledLine(line, level);
    HeadingIsNoMarker(Relevel(line, level));
  }

  lemma {:induction false} ShiftedLineReadsTheSame(lines: seq<string>, inFence: bool, delta: int, i: nat)
    requires i < |lines|
    ensures SameReading(ShiftedLines(lines, inFence, delta, MARKDOWN)[i], lines[i])
    decreases i
  {
    if i > 0 {
      ShiftedLineReadsTheSame(lines[1..], inFence != KindOf(lines[0]).Fence?, delta, i - 1);
    } else if LevelHere(KindOf(lines[0]), inFence) > 0 {
      ReleveledLineHoldsNoMarker(lines[0], Clamp(LevelHere(KindOf(lines[0]), inFence) + delta));
    }
  }

  lemma ShiftingReadsTheSame(text: string, top: nat)
    ensures SameLines(Split(Shifted(text, top, MARKDOWN)), Split(text))
  {
    var lines := Split(text);
    MarkdownIsCoherent();
    SplitOfShifted(text, top, MARKDOWN);
    if Top(lines, MARKDOWN) > 0 && Top(lines, MARKDOWN) != top {
      var delta := top - Top(lines, MARKDOWN);
      forall i | 0 <= i < |lines|
        ensures SameReading(ShiftedLines(lines, false, delta, MARKDOWN)[i], lines[i])
      {
        ShiftedLineReadsTheSame(lines, false, delta, i);
      }
    }
  }

  lemma RetitledLineIsALine(line: string, title: string)
    requires KindOf(line).Heading?
    ensures Opening(RetitledLine(line, title)).None?
    ensures '\n' !in line && '\n' !in title ==> '\n' !in RetitledLine(line, title)
  {
    var s, level := Strip(line), Hashes(Strip(line));
    StripTrims(line);
    var rest := " " + title + AnchorSuffix(s);
    assert RetitledLine(line, title) == Repeat(level) + rest;
    HashesAreNoMarker(level, rest);
    HashesOfRepeat(level, " ");
    assert '\n' !in line ==> '\n' !in AnchorSuffix(s);
  }

  lemma RetitlingReadsTheSame(text: string, title: string)
    requires '\n' !in title
    ensures SameLines(Split(Retitled(text, title)), Split(text))
  {
    var lines := Split(text);
    var i := FirstHeading(lines);
    SplitMakesLines(text);
    if i < |lines| {
      FirstHeadingIsFirst(lines);
      HeadingIsNoMarker(lines[i]);
      RetitledLineIsALine(lines[i], title);
      SplittingUndoesJoining(lines[i := RetitledLine(lines[i], title)]);
    } else {
      SplittingUndoesJoining(lines);
    }
  }

  // --- Titles that run over lines ---

  lemma QuoteFreeOpensNothing(line: string)
    requires '"' !in line
    ensures !OpensHeading(line)
  {
    if Opening(line).Some? {
      OpeningIsOnItsLine(line);
      var s := Opening(line).value;
      var afterId := s[IdRun(s)..];
      DroppingAddsNothing(afterId);
      var afterLevel := ParseLevel(afterId).1;
      assert '"' !in afterLevel;
      DroppingAddsNothing(afterLevel);
      assert HEADING[8] == '"';
      assert |DropBlanks(afterLevel)| >= 9 ==> DropBlanks(afterLevel)[..9][8] == DropBlanks(afterLevel)[8];
    }
  }

  lemma {:induction false} SplittingAddsNothing(text: string, c: char)
    requires c !in text
    ensures forall line <- Split(text) :: c !in line
    decreases |text|
  {
    if text != "" { SplittingAddsNothing(text[1..], c); }
  }

  lemma {:induction false} SlugsBehind(s: string)
    ensures forall i :: SlugStart(s) <= i < |s| ==> IsSlugChar(s[i])
    decreases |s|
  {
    if s != "" && IsSlugChar(s[|s| - 1]) { SlugsBehind(s[..|s| - 1]); }
  }

  lemma AnchorHoldsNoQuote(s: string)
    ensures '"' !in AnchorSuffix(s)
  {
    if AnchorSuffix(s) != "" {
      var inner := s[..|s| - 1];
      SlugsBehind(inner);
      QuoteFreeAnchor(s, inner, SlugStart(inner));
    }
  }

  lemma QuoteFreeAnchor(s: string, inner: string, k: nat)
    requires s == inner + "}" && 2 <= k < |s| && s[k - 2] == '{' && s[k - 1] == '#'
    requires forall i :: k <= i < |inner| ==> IsSlugChar(inner[i])
    ensures '"' !in " " + s[k - 2..]
  {
    forall i | k - 2 <= i < |s|
      ensures s[i] != '"'
    {
      assert i < |inner| ==> inner[i] == s[i];
    }
  }

  lemma {:induction false} ClosedPartsJoin(parts: seq<string>)
    requires forall part <- parts :: Closed(part, READER)
    ensures ClosedLines(Spread(parts), READER)
    decreases |parts|
  {
    if parts != [] {
      assert parts[0] in parts;
      ClosedPartsJoin(parts[1..]);
    }
  }

  lemma RetitledLineIsClosed(line: string, title: string)
    requires KindOf(line).Heading? && '"' !in title
    ensures Closed(RetitledLine(line, title), READER)
  {
    var s, level := Strip(line), Hashes(Strip(line));
    var retitled := RetitledLine(line, title);
    HashesOfRepeat(level, " ");
    AnchorHoldsNoQuote(s);
    assert '"' !in retitled;
    SplittingAddsNothing(retitled, '"');
    forall other <- Split(retitled)
      ensures !OpensHeading(other)
    {
      QuoteFreeOpensNothing(other);
    }
  }

  lemma RetitlingKeepsClosed(text: string, title: string)
    requires Closed(text, READER) && '"' !in title
    ensures Closed(Retitled(text, title), READER)
  {
    var lines := Split(text);
    var i := FirstHeading(lines);
    SplitMakesLines(text);
    if i < |lines| {
      FirstHeadingIsFirst(lines);
      var parts := lines[i := RetitledLine(lines[i], title)];
      RetitledLineIsClosed(lines[i], title);
      forall part <- parts
        ensures Closed(part, READER)
      {
        if part in lines { SplittingALine(part); }
      }
      ClosedPartsJoin(parts);
      JoinedIsSpread(parts);
    } else {
      SplittingUndoesJoining(lines);
    }
  }

  // --- A block's markers survive its being fitted in ---

  lemma ShiftedBodyKeepsMarkers(body: string, marker: Marker)
    ensures Markers(Split(ShiftedBody(body, marker)), READER) == Markers(Split(body), READER)
    ensures Closed(body, READER) ==> Closed(ShiftedBody(body, marker), READER)
  {
    var left := StripNewlinesLeft(body);
    var stripped := StripNewlinesRight(left);
    LeadingNewlinesHoldNoMarker(body);
    TrailingNewlinesHoldNoMarker(left);
    if marker.level.Some? {
      ShiftingReadsTheSame(stripped, marker.level.value);
      SameLinesRead(Split(ShiftedBody(body, marker)), Split(stripped));
    }
  }

  /** Stripping, shifting and retitling a block neither make nor lose an include marker that
      is read off a line, if the title is one line, and open no heading. */
  lemma AdjustingKeepsMarkers(body: string, marker: Marker)
    requires '\n' !in marker.heading
    ensures Markers(Split(Adjusted(body, marker)), READER) == Markers(Split(body), READER)
    ensures Closed(body, READER) ==> Closed(Adjusted(body, marker), READER)
  {
    ShiftedBodyKeepsMarkers(body, marker);
    if marker.heading != "" {
      RetitlingReadsTheSame(ShiftedBody(body, marker), marker.heading);
      SameLinesRead(Split(Adjusted(body, marker)), Split(ShiftedBody(body, marker)));
    }
  }

  lemma HeadingsHoldNoQuote(text: string)
    requires ReadMarker(text).Some?
    ensures '"' !in ReadMarker(text).value.marker.heading
  {
  }

  lemma AdjustingKeepsClosed(body: string, marker: Marker)
    requires Closed(body, READER) && Readable(marker, READER)
    ensures Closed(Adjusted(body, marker), READER)
  {
    var text :| READER.read(text).Some? && READER.read(text).value.marker == marker;
    HeadingsHoldNoQuote(text);
    ShiftedBodyKeepsMarkers(body, marker);
    if marker.heading != "" { RetitlingKeepsClosed(ShiftedBody(body, marker), marker.heading); }
  }

  lemma MarkerHeadingIsOnItsLine(line: string)
    requires '\n' !in line && ReadMarker(line).Some?
    ensures '\n' !in ReadMarker(line).value.marker.heading
  {
    OpeningIsOnItsLine(line);
    var s := Opening(line).value;
    LevelIsOnItsLine(s[IdRun(s)..]);
    DroppingAddsNothing(ParseLevel(s[IdRun(s)..]).1);
  }

  lemma GeneratorFits()
    ensures Fits(READER)
  {
    forall line | '\n' !in line && READER.read(line).Some?
      ensures '\n' !in READER.read(line).value.marker.heading
    {
      MarkerHeadingIsOnItsLine(line);
    }
    forall body, marker | Closed(body, READER) && Readable(marker, READER)
      ensures Closed(READER.adjust(body, marker), READER)
    {
      AdjustingKeepsClosed(body, marker);
    }
    forall body, marker: Marker | Closed(body, READER) && '\n' !in marker.heading
      ensures Markers(Split(READER.adjust(body, marker)), READER) == Markers(Split(body), READER)
    {
      AdjustingKeepsMarkers(body, marker);
    }
  }

  /** When no line of the page or of a block opens a heading that it does not close, a page
      expands unless some chain of markers through the blocks names an unknown one or goes
      more than 16 deep, and then holds no marker and stays as it is. */
  lemma PagesExpand(page: string, blocks: Blocks)
    requires Closed(page, READER) && AllClosed(blocks, READER)
    ensures Expand(page, blocks, 0, READER).None? <==> exists markers :: PlainlyFatal(page, markers, blocks, READER)
    ensures Expand(page, blocks, 0, READER).Some? ==>
              var once := Expand(page, blocks, 0, READER).value;
              NoMarker(once, READER) && Expand(once, blocks, 0, READER) == Some(once)
  {
    GeneratorFits();
    ClosedPagesExpand(page, blocks, READER);
  }
}
