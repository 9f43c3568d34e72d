// Headings that a page or a block opens and does not close: when they make expansion leave
// a marker behind.

module DocsOpenHeadings {
  import opened Options
  import opened DocsLines
  import opened DocsShift
  import opened DocsText
  import opened DocsIncludes
  import opened DocsLeftovers
  import opened DocsByLine
  import opened DocsMarkers
  import opened DocsBuild

  // A line that closes a heading left open before it, and ends the marker.
  const STOP := "x" + ("\"" + END)

  lemma StopIsAnEnd()
    ensures '\n' !in STOP && STOP[0] == 'x' && STOP[|STOP| - 1] == '>'
    ensures ReadMarker(STOP).None? && !OpensHeading(STOP) && HasQuote(STOP) && ClosesHeading(STOP)
  {
    assert STOP[0] == 'x';
    assert DropBlanks(STOP) == STOP;
    assert "<!--"[0] == '<';
    assert STOP[..4][0] == 'x';
    QuoteReads("x", END);
    assert STOP[2..] == END;
    EndReads("");
    assert END + "" == END;
  }

  lemma StopIsProse()
    ensures KindOf(STOP) == Prose && Split(STOP) == [STOP]
  {
    StopIsAnEnd();
    TrimmedStays(STOP);
    SplittingALine(STOP);
  }

  lemma StopIsFittedAsItIs(marker: Marker)
    ensures Adjusted(STOP, marker) == STOP
  {
    StopIsAnEnd();
    StopIsProse();
    var lines := [STOP];
    assert lines[1..] == [];
    assert Levels(lines, false, MARKDOWN) == [0];
    assert [0][1..] == [];
    assert Top(lines, MARKDOWN) == 0;
    assert FirstHeading(lines) == 1;
  }

  lemma StopStops()
    ensures IsStopper(STOP, READER)
  {
    StopIsAnEnd();
    forall marker
      ensures READER.adjust(STOP, marker) == STOP
    {
      StopIsFittedAsItIs(marker);
    }
  }

  /** A page is expanded without a marker being left, with whatever blocks that leave no
      heading open, if and only if none of its own headings is still open at an include; and
      only then is expanding it twice expanding it once. */
  lemma PagesAreSafeExactly(page: string)
    ensures Harmless(Items(page, READER), READER) <==>
            forall blocks :: SettledBlocks(blocks, READER) && Expand(page, blocks, 0, READER).Some? ==>
                               NoMarker(Expand(page, blocks, 0, READER).value, READER)
    ensures Harmless(Items(page, READER), READER) <==>
            forall blocks :: SettledBlocks(blocks, READER) && Expand(page, blocks, 0, READER).Some? ==>
                               Expand(Expand(page, blocks, 0, READER).value, blocks, 0, READER)
                               == Expand(page, blocks, 0, READER)
  {
    StopStops();
    PageIsSafeExactly(page, STOP, READER);
    PageIsIdempotentExactly(page, STOP, READER);
  }

  lemma WrittenLine(marker: Marker)
    requires Writable(marker) && '\n' !in marker.heading
    ensures '\n' !in Written(marker) && !OpensHeading(Written(marker))
    ensures ReadMarker(Written(marker)) == Some(Found(marker, ""))
  {
    var line := Written(marker);
    WrittenAddsNothing(marker, '\n');
    assert line + "" == line;
    WrittenMarkersReadBack(marker, "");
    if OpensHeading(line) { OpeningIsNoMarkerAlone(line, READER); }
  }

  /** A block that does not include itself can be put before any line, in the way a marker
      fits it, if and only if it then has no heading open at an include or at its end. */
  lemma BlocksAreSafeExactly(body: string, marker: Marker)
    requires Writable(marker) && marker.id !in IdsOf(Adjusted(body, marker), READER)
    ensures var out := Expand(Written(marker) + "\n" + STOP, Around(body, marker, STOP, READER), 0, READER);
            out.Some? && (NoMarker(out.value, READER) <==> Settled(Items(Adjusted(body, marker), READER), READER))
  {
    StopStops();
    var text, tail := Written(marker), "\n" + STOP;
    assert text + "\n" + STOP == text + tail;
    WrittenMarkersReadBack(marker, tail);
    BlockIsSafeExactly(text, marker, body, STOP, READER);
  }

  // --- A page that leaves one ---

  const OPEN := " " + HEADING

  function OpenLine(id: string): string { START + (id + OPEN) }

  lemma OpenRunsOn()
    ensures RunsOn(ParseLevel(OPEN).1) && '\n' !in OPEN && OPEN[0] == ' '
  {
    assert HEADING + "" == HEADING;
    KeywordReads(HEADING, "");
    OtherKeyword(HEADING, "", LEVEL);
  }

  lemma OpenLineIsALine(id: string)
    requires IsId(id)
    ensures '\n' !in OpenLine(id)
  {
    assert '\n' !in id && '\n' !in OPEN && '\n' !in START;
  }

  lemma OpenLineOpens(id: string)
    requires IsId(id)
    ensures OpensHeading(OpenLine(id)) && '\n' !in OpenLine(id)
  {
    var s := id + OPEN;
    OpenRunsOn();
    assert id[0] in id;
    assert s[0] == id[0] && s[|id|..] == OPEN;
    OpeningReads(s);
    IdReads(id, OPEN);
    OpenLineIsALine(id);
  }

  lemma PlainMarkerHasNoQuote(id: string)
    requires IsId(id)
    ensures !HasQuote(Written(Marker(id, None, "")))
  {
    WrittenAddsNothing(Marker(id, None, ""), '"');
  }

  function LeavingPage(first: string, second: string): string
    requires IsId(first) && IsId(second)
  {
    OpenLine(first) + "\n" + Written(Marker(second, None, ""))
  }

  lemma LeavingItems(first: string, second: string)
    requires IsId(first) && IsId(second)
    ensures Items(LeavingPage(first, second), READER) == [Line(OpenLine(first)), Include(Marker(second, None, ""))]
  {
    var marker := Marker(second, None, "");
    var line, next := OpenLine(first), Written(marker);
    var tail := "\n" + next;
    OpenLineOpens(first);
    WrittenLine(marker);
    PlainMarkerHasNoQuote(second);
    SplittingALine(next);
    assert tail[1..] == next;
    assert LeavingPage(first, second) == line + tail;
    LineEndOf(line, tail);
    FirstItem(line + tail, READER);
    assert LinesAfter(tail) == [next] && [next][1..] == [];
    assert !NextCloses([next], READER);
    assert Items(next, READER) == [Include(marker)] + Following("", READER);
  }

  lemma LeavingExpands(first: string, second: string)
    requires IsId(first) && IsId(second)
    ensures Expand(LeavingPage(first, second), map[second := STOP], 0, READER) == Some(OpenLine(first) + "\n" + STOP)
  {
    var page, blocks := LeavingPage(first, second), map[second := STOP];
    var items := Items(page, READER);
    StopStops();
    LeavingItems(first, second);
    StoppedText(page, blocks, 0, STOP, READER);
    var out := Expand(page, blocks, 0, READER).value;
    assert items[1..][1..] == [];
    assert Stopped(items, STOP) == [OpenLine(first), STOP];
    JoiningUndoesSplitting(out);
    assert [OpenLine(first), STOP][1..] == [STOP];
  }

  lemma LeftoverIsWritten(id: string)
    requires IsId(id)
    ensures OpenLine(id) + "\n" + STOP == Written(Marker(id, None, "\nx"))
  {
    var close := "\"" + END;
    assert HeadingText("\nx") == OPEN + ("\nx" + "\"");
    assert HeadingText("\nx") + END == OPEN + ("\nx" + close);
    assert "\n" + ("x" + close) == "\nx" + close;
    assert START + (id + (OPEN + ("\nx" + close))) == (START + (id + OPEN)) + ("\nx" + close);
    assert LevelText(None) + (HeadingText("\nx") + END) == HeadingText("\nx") + END;
    assert (OpenLine(id) + "\n") + STOP == OpenLine(id) + ("\n" + STOP);
  }

  /** This page's first line opens a heading, and the block that its second line includes
      closes it: what expansion gives is the marker of a block there is not, and cannot be
      expanded again. */
  lemma MarkerIsLeft(first: string, second: string)
    requires IsId(first) && IsId(second) && first != second
    ensures var blocks := map[second := STOP];
            var once := Expand(LeavingPage(first, second), blocks, 0, READER);
            && once.Some? && once.value == Written(Marker(first, None, "\nx"))
            && !NoMarker(once.value, READER) && Expand(once.value, blocks, 0, READER).None?
  {
    var marker := Marker(first, None, "\nx");
    var out := OpenLine(first) + "\n" + STOP;
    LeavingExpands(first, second);
    LeftoverIsWritten(first);
    assert out + "" == out;
    WrittenMarkersReadBack(marker, "");
    var items := Items(out, READER);
    assert items[0] == Include(marker) && items[0] in items;
  }

  lemma ShortTitle(mark: char)
    requires !IsSpace(mark)
    ensures var line := "# " + [mark];
            && KindOf(line).Heading? && Hashes(Strip(line)) == 1 && '\n' !in line
            && (mark != '}' ==> AnchorSuffix(Strip(line)) == "")
  {
    var line := "# " + [mark];
    HashLine(1, " " + [mark]);
    Repeats();
    assert "#" + (" " + [mark]) == line;
    TrimmedStays(line);
  }

  lemma TitleOverLines(line: string)
    ensures Retitled("# t", "x\n" + line) == "# x" + ("\n" + line)
  {
    var title := "x\n" + line;
    ShortTitle('t');
    assert "# " + ['t'] == "# t";
    SplittingALine("# t");
    assert FirstHeading(["# t"]) == 0;
    Repeats();
    assert RetitledLine("# t", title) == "#" + " " + title + "";
    assert "#" + " " + title + "" == "# x" + ("\n" + line);
    assert ["# t"][0 := "# x" + ("\n" + line)] == ["# x" + ("\n" + line)];
  }

  lemma ShortTitleHoldsNoMarker(mark: char)
    requires !IsSpace(mark)
    ensures Split("# " + [mark]) == ["# " + [mark]] && Markers(["# " + [mark]], READER) == []
  {
    var line := "# " + [mark];
    ShortTitle(mark);
    HeadingIsNoMarker(line);
    SplittingALine(line);
    assert [line][1..] == [];
  }

  lemma WrittenLineIsOneMarker(marker: Marker)
    requires Writable(marker) && '\n' !in marker.heading
    ensures Split(Written(marker)) == [Written(marker)] && Markers([Written(marker)], READER) == [marker]
  {
    WrittenLine(marker);
    SplittingALine(Written(marker));
    assert [Written(marker)][1..] == [];
  }

  /** And a heading that runs over lines can bring a marker of its own into the block. */
  lemma TitleCarriesAMarker(id: string)
    requires IsId(id)
    ensures var title := "x\n" + Written(Marker(id, None, ""));
            Markers(Split("# t"), READER) == [] && Markers(Split(Retitled("# t", title)), READER) == [Marker(id, None, "")]
  {
    var line := Written(Marker(id, None, ""));
    WrittenLineIsOneMarker(Marker(id, None, ""));
    TitleOverLines(line);
    assert "# " + ['t'] == "# t" && "# " + ['x'] == "# x";
    ShortTitleHoldsNoMarker('t');
    ShortTitleHoldsNoMarker('x');
    assert "# x" + ("\n" + line) == "# x" + "\n" + line;
    SplittingTwo("# x", line);
    MarkersOfTwo(["# x"], [line]);
  }
}
