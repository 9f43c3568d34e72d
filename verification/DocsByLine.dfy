// Texts none of whose lines opens a heading that it does not close: they are read line by
// line, and stay so when they are fitted into one another.

module DocsByLine {
  import opened Options
  import opened DocsLines
  import opened DocsIncludes
  import opened DocsLeftovers

  predicate ClosedLines(lines: seq<string>, r: Matcher) { forall line <- lines :: !r.opens(line) }

  predicate Closed(text: string, r: Matcher) { ClosedLines(Split(text), r) }

  predicate AllClosed(blocks: Blocks, r: Matcher) { forall id <- blocks :: Closed(blocks[id], r) }

  // The markers of some lines, each read off its own.
  function Markers(lines: seq<string>, r: Matcher): seq<Marker> {
    if lines == [] then []
    else match r.read(lines[0])
      case None => Markers(lines[1..], r)
      case Some(found) => [found.marker] + Markers(lines[1..], r)
  }

  function ItemOf(line: string, r: Matcher): Item {
    match r.read(line)
    case None => Line(line)
    case Some(found) => Include(found.marker)
  }

  function ByLine(lines: seq<string>, r: Matcher): seq<Item> {
    if lines == [] then [] else [ItemOf(lines[0], r)] + ByLine(lines[1..], r)
  }

  // --- Reading ---

  /** A text whose lines open no heading is read line by line. */
  lemma {:induction false} ClosedTextIsReadByLine(text: string, r: Reader)
    requires Closed(text, r)
    ensures Items(text, r) == ByLine(Split(text), r)
    decreases |text|
  {
    var n := LineEnd(text);
    var line, tail := text[..n], text[n..];
    SplitAtLineEnd(text);
    assert Split(text)[0] == line && Split(text)[1..] == LinesAfter(tail);
    FirstItem(text, r);
    assert Items(text, r) == [ItemOf(line, r)] + Following(tail, r);
    if tail != "" {
      assert forall other <- LinesAfter(tail) :: other in Split(text);
      ClosedTextIsReadByLine(tail[1..], r);
    }
  }

  lemma {:induction false} MarkersAreItems(lines: seq<string>, marker: Marker, r: Matcher)
    ensures Include(marker) in ByLine(lines, r) <==> marker in Markers(lines, r)
    decreases |lines|
  {
    if lines != [] { MarkersAreItems(lines[1..], marker, r); }
  }

  lemma {:induction false} ClosedLinesAreSettled(lines: seq<string>, r: Matcher)
    requires ClosedLines(lines, r)
    ensures Settled(ByLine(lines, r), r) && Harmless(ByLine(lines, r), r)
    decreases |lines|
  {
    if lines != [] {
      assert lines[0] in lines;
      ClosedLinesAreSettled(lines[1..], r);
    }
  }

  lemma ClosedTextIsSettled(text: string, r: Reader)
    requires Closed(text, r)
    ensures Settled(Items(text, r), r) && Harmless(Items(text, r), r)
  {
    ClosedTextIsReadByLine(text, r);
    ClosedLinesAreSettled(Split(text), r);
  }

  // --- Fitting ---

  // A marker read off a line has its heading there; fitting a closed block leaves it closed;
  // and it keeps the block's markers, unless the heading runs over lines.
  ghost predicate Fits(r: Reader) {
    && (forall line :: '\n' !in line && r.read(line).Some? ==> '\n' !in r.read(line).value.marker.heading)
    && (forall body, marker :: Closed(body, r) && Readable(marker, r) ==> Closed(r.adjust(body, marker), r))
    && (forall body, marker: Marker :: Closed(body, r) && '\n' !in marker.heading ==>
          Markers(Split(r.adjust(body, marker)), r) == Markers(Split(body), r))
  }

  lemma ClosedBlocksAreSettled(blocks: Blocks, r: Reader)
    requires Fits(r) && AllClosed(blocks, r)
    ensures SettledBlocks(blocks, r)
  {
    forall id, marker | id in blocks && Readable(marker, r)
      ensures Settled(Items(r.adjust(blocks[id], marker), r), r)
    {
      ClosedTextIsSettled(r.adjust(blocks[id], marker), r);
    }
  }

  // Markers each found in the block of the one before as it stands, the first in the text.
  predicate PlainChain(text: string, markers: seq<Marker>, blocks: Blocks, r: Matcher)
    decreases |markers|
  {
    && markers != [] && markers[0] in Markers(Split(text), r)
    && (|markers| > 1 ==> markers[0].id in blocks && PlainChain(blocks[markers[0].id], markers[1..], blocks, r))
  }

  predicate PlainlyFatal(text: string, markers: seq<Marker>, blocks: Blocks, r: Matcher) {
    && PlainChain(text, markers, blocks, r) && |markers| <= 17
    && (markers[|markers| - 1].id !in blocks || |markers| == 17)
  }

  lemma {:induction false} MarkersOfLines(lines: seq<string>, r: Reader)
    requires Fits(r) && AreLines(lines)
    ensures forall marker <- Markers(lines, r) :: '\n' !in marker.heading && Readable(marker, r)
    decreases |lines|
  {
    if lines != [] {
      assert lines[1..] == [] || AreLines(lines[1..]);
      MarkersOfLines(lines[1..], r);
      assert '\n' !in lines[0];
    }
  }

  lemma {:induction false} ChainsArePlain(text: string, markers: seq<Marker>, blocks: Blocks, r: Reader)
    requires Fits(r) && Closed(text, r) && AllClosed(blocks, r)
    ensures Chain(text, markers, blocks, r) <==> PlainChain(text, markers, blocks, r)
    decreases |markers|
  {
    if markers != [] {
      var first := markers[0];
      ClosedTextIsReadByLine(text, r);
      MarkersAreItems(Split(text), first, r);
      SplitMakesLines(text);
      MarkersOfLines(Split(text), r);
      if |markers| > 1 && first in Markers(Split(text), r) && first.id in blocks {
        ChainsArePlain(r.adjust(blocks[first.id], first), markers[1..], blocks, r);
      }
    }
  }

  /** When the page and the blocks are closed, expansion fails exactly on a chain of markers
      through the blocks as they stand that names an unknown block or goes too deep, and what
      it gives otherwise holds no marker and stays as it is when expanded again. */
  lemma ClosedPagesExpand(page: string, blocks: Blocks, r: Reader)
    requires Fits(r) && Closed(page, r) && AllClosed(blocks, r)
    ensures Expand(page, blocks, 0, r).None? <==> exists markers :: PlainlyFatal(page, markers, blocks, r)
    ensures Expand(page, blocks, 0, r).Some? ==>
              var once := Expand(page, blocks, 0, r).value;
              NoMarker(once, r) && Expand(once, blocks, 0, r) == Some(once)
  {
    ExpansionFailsOnlyOnFatalChains(page, blocks, r);
    forall markers
      ensures Fatal(page, markers, blocks, 0, r) <==> PlainlyFatal(page, markers, blocks, r)
    {
      ChainsArePlain(page, markers, blocks, r);
    }
    if Expand(page, blocks, 0, r).Some? {
      ClosedTextIsSettled(page, r);
      ClosedBlocksAreSettled(blocks, r);
      NoMarkerIsLeft(page, blocks, r);
      ExpansionIsIdempotent(page, blocks, r);
    }
  }
}
