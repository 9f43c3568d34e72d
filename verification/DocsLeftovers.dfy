// Whether expansion leaves a marker: a line that opens a heading can find its closing quote
// in a block that is put after it, and the lines between are a marker then.

module DocsLeftovers {
  import opened Options
  import opened DocsLines
  import opened DocsIncludes

  // --- What a text must look like before it is expanded ---

  // Going on from an open heading, an include comes before any line with a quote; or a line
  // with a quote comes before any include and before the end.
  predicate MeetsInclude(items: seq<Item>, r: Matcher) {
    items != [] && (items[0].Include? || (!r.quoted(items[0].text) && MeetsInclude(items[1..], r)))
  }

  predicate MeetsQuote(items: seq<Item>, r: Matcher) {
    items != [] && items[0].Line? && (r.quoted(items[0].text) || MeetsQuote(items[1..], r))
  }

  // No heading is still open at an include.
  predicate Harmless(items: seq<Item>, r: Matcher) {
    items == []
    || ((items[0].Line? && r.opens(items[0].text) ==> !MeetsInclude(items[1..], r)) && Harmless(items[1..], r))
  }

  // No heading is still open at an include or at the end.
  predicate Settled(items: seq<Item>, r: Matcher) {
    items == [] || ((items[0].Line? && r.opens(items[0].text) ==> MeetsQuote(items[1..], r)) && Settled(items[1..], r))
  }

  // A marker that some text holds.
  ghost predicate Readable(marker: Marker, r: Reader) {
    exists text :: r.read(text).Some? && r.read(text).value.marker == marker
  }

  // Every block, fitted for whatever marker, leaves no heading open.
  ghost predicate SettledBlocks(blocks: Blocks, r: Reader) {
    forall id, marker :: id in blocks && Readable(marker, r) ==> Settled(Items(r.adjust(blocks[id], marker), r), r)
  }

  lemma {:induction false} MarkersAreReadable(text: string, r: Reader)
    ensures forall item <- Items(text, r) :: item.Include? ==> Readable(item.marker, r)
    decreases |text|
  {
    assert ReadsLines(r, text);
    var tail := if r.read(text).Some? then r.read(text).value.rest else text[LineEnd(text)..];
    assert Items(text, r)[1..] == Following(tail, r);
    if tail != "" { MarkersAreReadable(tail[1..], r); }
  }

  // --- What expansion makes of the lines ---

  // The lines of the parts that are joined.
  function Spread(parts: seq<string>): seq<string> { if parts == [] then [] else Split(parts[0]) + Spread(parts[1..]) }

  lemma {:induction false} JoinedIsSpread(parts: seq<string>)
    requires parts != []
    ensures Split(Join(parts)) == Spread(parts)
    decreases |parts|
  {
    if |parts| > 1 {
      SplittingTwo(parts[0], Join(parts[1..]));
      JoinedIsSpread(parts[1..]);
    } else {
      assert Spread(parts[1..]) == [];
    }
  }

  // A line stays, and an include has become something in which no marker starts whatever
  // follows it.
  predicate Served(items: seq<Item>, parts: seq<string>, r: Matcher) {
    if items == [] then parts == []
    else
      && parts != []
      && (match items[0]
          case Line(text) => parts[0] == text && '\n' !in text
          case Include(_) => QuietLines(Split(parts[0]), r))
      && Served(items[1..], parts[1..], r)
  }

  lemma {:induction false} SettlingStays(lines: seq<string>, more: seq<string>, r: Matcher)
    requires NextSettles(lines, r)
    ensures NextSettles(lines + more, r) && !NextCloses(lines + more, r)
    decreases |lines|
  {
    assert (lines + more)[0] == lines[0] && (lines + more)[1..] == lines[1..] + more;
    if !r.quoted(lines[0]) { SettlingStays(lines[1..], more, r); }
  }

  lemma {:induction false} QuietFirst(lines: seq<string>, more: seq<string>, r: Matcher)
    requires QuietLines(lines, r)
    ensures PlainLines(more, r) ==> PlainLines(lines + more, r)
    ensures QuietLines(more, r) ==> QuietLines(lines + more, r)
    decreases |lines|
  {
    if lines == [] {
      assert lines + more == more;
    } else {
      assert (lines + more)[0] == lines[0] && (lines + more)[1..] == lines[1..] + more;
      QuietFirst(lines[1..], more, r);
      if r.opens(lines[0]) { SettlingStays(lines[1..], more, r); }
    }
  }

  lemma QuietIsPlain(lines: seq<string>, r: Matcher)
    requires QuietLines(lines, r)
    ensures PlainLines(lines, r)
  {
    QuietFirst(lines, [], r);
    assert lines + [] == lines;
  }

  // Up to the next quote the expanded lines are the text's own, if no include comes first.
  lemma {:induction false} SameUpToTheQuote(tail: string, parts: seq<string>, r: Reader)
    requires IsTail(tail) && Served(Following(tail, r), parts, r) && !MeetsInclude(Following(tail, r), r)
    ensures NextCloses(Spread(parts), r) == NextCloses(LinesAfter(tail), r)
    ensures NextSettles(Spread(parts), r) == NextSettles(LinesAfter(tail), r)
    ensures MeetsQuote(Following(tail, r), r) ==> NextCloses(Spread(parts), r) || NextSettles(Spread(parts), r)
    decreases |tail|
  {
    if tail != "" {
      var text := tail[1..];
      var line, rest := text[..LineEnd(text)], text[LineEnd(text)..];
      SplitAtLineEnd(text);
      assert Items(text, r) == [Line(line)] + Following(rest, r);
      SplittingALine(line);
      assert Spread(parts) == [line] + Spread(parts[1..]) && LinesAfter(tail) == [line] + LinesAfter(rest);
      if !r.quoted(line) { SameUpToTheQuote(rest, parts[1..], r); }
    }
  }

  lemma {:induction false} NoQuoteAndInclude(items: seq<Item>, r: Matcher)
    requires MeetsQuote(items, r)
    ensures !MeetsInclude(items, r)
    decreases |items|
  {
    if !r.quoted(items[0].text) { NoQuoteAndInclude(items[1..], r); }
  }

  // The lines a text without an include among what matters becomes.
  lemma {:induction false} HarmlessStaysPlain(text: string, parts: seq<string>, r: Reader)
    requires Served(Items(text, r), parts, r) && Harmless(Items(text, r), r)
    ensures PlainLines(Spread(parts), r)
    decreases |text|
  {
    var n, items := LineEnd(text), Items(text, r);
    assert ReadsLines(r, text);
    var tail := if r.read(text).Some? then r.read(text).value.rest else text[n..];
    assert items[1..] == Following(tail, r);
    if tail != "" { HarmlessStaysPlain(tail[1..], parts[1..], r); }
    if items[0].Include? {
      QuietFirst(Split(parts[0]), Spread(parts[1..]), r);
    } else {
      LineStarts(text, parts, r);
      if r.opens(text[..n]) { SameUpToTheQuote(tail, parts[1..], r); }
    }
  }

  lemma LineStarts(text: string, parts: seq<string>, r: Reader)
    requires Served(Items(text, r), parts, r) && Items(text, r)[0].Line?
    ensures var n := LineEnd(text);
            && r.read(text).None? && Items(text, r) == [Line(text[..n])] + Following(text[n..], r)
            && Spread(parts) == [text[..n]] + Spread(parts[1..])
            && r.read(text[..n]).None? && (r.opens(text[..n]) ==> !NextCloses(LinesAfter(text[n..]), r))
  {
    FirstItem(text, r);
    SplittingALine(text[..LineEnd(text)]);
    if r.opens(text[..LineEnd(text)]) { OpeningIsNoMarkerAlone(text[..LineEnd(text)], r); }
  }

  lemma {:induction false} SettledStaysQuiet(text: string, parts: seq<string>, r: Reader)
    requires Served(Items(text, r), parts, r) && Settled(Items(text, r), r)
    ensures QuietLines(Spread(parts), r)
    decreases |text|
  {
    var n, items := LineEnd(text), Items(text, r);
    assert ReadsLines(r, text);
    var tail := if r.read(text).Some? then r.read(text).value.rest else text[n..];
    assert items[1..] == Following(tail, r);
    if tail != "" { SettledStaysQuiet(tail[1..], parts[1..], r); }
    if items[0].Include? {
      QuietFirst(Split(parts[0]), Spread(parts[1..]), r);
    } else {
      LineStarts(text, parts, r);
      if r.opens(text[..n]) {
        NoQuoteAndInclude(Following(tail, r), r);
        SameUpToTheQuote(tail, parts[1..], r);
      }
    }
  }

  // --- No marker is left ---

  lemma {:induction false} ExpansionIsQuiet(text: string, blocks: Blocks, depth: nat, r: Reader)
    requires SettledBlocks(blocks, r) && Settled(Items(text, r), r) && Expand(text, blocks, depth, r).Some?
    ensures QuietLines(Split(Expand(text, blocks, depth, r).value), r)
    decreases MAX_INCLUDE_DEPTH + 1 - depth, 1, 0
  {
    var parts := ExpandItems(Items(text, r), blocks, depth, r).value;
    MarkersAreReadable(text, r);
    LinesAreLines(text, r);
    PartsAreServed(Items(text, r), blocks, depth, r);
    SettledStaysQuiet(text, parts, r);
    JoinedIsSpread(parts);
  }

  lemma {:induction false} LinesAreLines(text: string, r: Reader)
    ensures forall item <- Items(text, r) :: item.Line? ==> '\n' !in item.text
    decreases |text|
  {
    assert ReadsLines(r, text);
    var tail := if r.read(text).Some? then r.read(text).value.rest else text[LineEnd(text)..];
    assert Items(text, r)[1..] == Following(tail, r);
    if tail != "" { LinesAreLines(tail[1..], r); }
  }

  lemma {:induction false} PartsAreServed(items: seq<Item>, blocks: Blocks, depth: nat, r: Reader)
    requires depth <= MAX_INCLUDE_DEPTH && SettledBlocks(blocks, r) && ExpandItems(items, blocks, depth, r).Some?
    requires forall item <- items :: if item.Include? then Readable(item.marker, r) else '\n' !in item.text
    ensures Served(items, ExpandItems(items, blocks, depth, r).value, r)
    decreases MAX_INCLUDE_DEPTH + 1 - depth, 0, |items|
  {
    if items != [] {
      assert items[0] in items;
      PartsAreServed(items[1..], blocks, depth, r);
      if items[0].Include? {
        ExpansionIsQuiet(r.adjust(blocks[items[0].marker.id], items[0].marker), blocks, depth + 1, r);
      }
    }
  }

  /** When no heading of the page is still open at an include, and none of a block at an
      include or at its end, what expansion gives holds no marker. */
  lemma NoMarkerIsLeft(page: string, blocks: Blocks, r: Reader)
    requires Harmless(Items(page, r), r) && SettledBlocks(blocks, r) && Expand(page, blocks, 0, r).Some?
    ensures NoMarker(Expand(page, blocks, 0, r).value, r)
  {
    var parts := ExpandItems(Items(page, r), blocks, 0, r).value;
    MarkersAreReadable(page, r);
    LinesAreLines(page, r);
    PartsAreServed(Items(page, r), blocks, 0, r);
    HarmlessStaysPlain(page, parts, r);
    JoinedIsSpread(parts);
    PlainLinesHaveNoMarker(Join(parts), r);
  }

  /** And then expanding twice is expanding once. */
  lemma ExpansionIsIdempotent(page: string, blocks: Blocks, r: Reader)
    requires Harmless(Items(page, r), r) && SettledBlocks(blocks, r) && Expand(page, blocks, 0, r).Some?
    ensures var once := Expand(page, blocks, 0, r).value;
            Expand(once, blocks, 0, r) == Some(once)
  {
    NoMarkerIsLeft(page, blocks, r);
    TextWithoutMarkerStays(Expand(page, blocks, 0, r).value, blocks, 0, r);
  }

  // --- And the conditions are needed ---

  // A block of one line whose first quote would end a marker, and that is fitted as it is.
  ghost predicate IsStopper(stop: string, r: Reader) {
    && '\n' !in stop && r.read(stop).None? && !r.opens(stop) && r.quoted(stop) && r.closes(stop)
    && forall marker :: Readable(marker, r) ==> r.adjust(stop, marker) == stop
  }

  function IdsOf(text: string, r: Reader): set<string> {
    set item | item in Items(text, r) && item.Include? :: item.marker.id
  }

  // What becomes of a text when all its includes are that block.
  function Stopped(items: seq<Item>, stop: string): (parts: seq<string>)
    ensures |parts| == |items|
  {
    if items == [] then []
    else [if items[0].Line? then items[0].text else stop] + Stopped(items[1..], stop)
  }

  predicate AllAre(blocks: Blocks, items: seq<Item>, stop: string) {
    forall item <- items :: item.Include? ==> item.marker.id in blocks && blocks[item.marker.id] == stop
  }

  lemma StopperIsOneLine(stop: string, r: Reader)
    requires IsStopper(stop, r)
    ensures Items(stop, r) == [Line(stop)] && Split(stop) == [stop] && QuietLines([stop], r) && PlainLines([stop], r)
  {
    SplittingALine(stop);
    SplitAtLineEnd(stop);
    assert stop[..LineEnd(stop)] == stop;
    assert [stop][1..] == [];
  }

  lemma {:induction false} StoppedItems(items: seq<Item>, blocks: Blocks, depth: nat, stop: string, r: Reader)
    requires depth < MAX_INCLUDE_DEPTH && IsStopper(stop, r) && AllAre(blocks, items, stop)
    requires forall item <- items :: item.Include? ==> Readable(item.marker, r)
    ensures ExpandItems(items, blocks, depth, r) == Some(Stopped(items, stop))
    decreases |items|
  {
    if items != [] {
      assert items[0] in items;
      StoppedItems(items[1..], blocks, depth, stop, r);
      StopperIsOneLine(stop, r);
      TextWithoutMarkerStays(stop, blocks, depth + 1, r);
    }
  }

  lemma {:induction false} StoppedLines(items: seq<Item>, stop: string)
    requires '\n' !in stop && forall item <- items :: item.Line? ==> '\n' !in item.text
    ensures Spread(Stopped(items, stop)) == Stopped(items, stop)
    decreases |items|
  {
    if items != [] {
      assert items[0] in items;
      SplittingALine(Stopped(items, stop)[0]);
      assert Stopped(items, stop)[1..] == Stopped(items[1..], stop);
      StoppedLines(items[1..], stop);
    }
  }

  // An open heading that meets an include is closed by the stopper there, and one that meets
  // no quote by a stopper behind.
  lemma {:induction false} HeadingAtIncludeIsClosed(items: seq<Item>, stop: string, r: Reader)
    requires IsStopper(stop, r) && MeetsInclude(items, r)
    ensures NextCloses(Stopped(items, stop), r)
    decreases |items|
  {
    assert Stopped(items, stop)[1..] == Stopped(items[1..], stop);
    if items[0].Line? { HeadingAtIncludeIsClosed(items[1..], stop, r); }
  }

  lemma {:induction false} HeadingAtEndIsClosed(items: seq<Item>, stop: string, r: Reader)
    requires IsStopper(stop, r) && !MeetsQuote(items, r)
    ensures NextCloses(Stopped(items, stop) + [stop], r)
    decreases |items|
  {
    var lines := Stopped(items, stop) + [stop];
    if items == [] {
      assert lines == [stop];
    } else {
      assert lines[0] == Stopped(items, stop)[0] && lines[1..] == Stopped(items[1..], stop) + [stop];
      if items[0].Line? { HeadingAtEndIsClosed(items[1..], stop, r); }
    }
  }

  lemma {:induction false} HarmIsCaught(items: seq<Item>, stop: string, r: Reader)
    requires IsStopper(stop, r) && !Harmless(items, r)
    ensures !PlainLines(Stopped(items, stop), r)
    decreases |items|
  {
    assert Stopped(items, stop)[1..] == Stopped(items[1..], stop);
    if !Harmless(items[1..], r) {
      HarmIsCaught(items[1..], stop, r);
    } else {
      HeadingAtIncludeIsClosed(items[1..], stop, r);
    }
  }

  lemma {:induction false} UnsettledIsCaught(items: seq<Item>, stop: string, r: Reader)
    requires IsStopper(stop, r) && !Settled(items, r)
    ensures !PlainLines(Stopped(items, stop) + [stop], r)
    decreases |items|
  {
    var lines := Stopped(items, stop) + [stop];
    assert lines[0] == Stopped(items, stop)[0] && lines[1..] == Stopped(items[1..], stop) + [stop];
    if !Settled(items[1..], r) {
      UnsettledIsCaught(items[1..], stop, r);
    } else {
      HeadingAtEndIsClosed(items[1..], stop, r);
    }
  }

  lemma {:induction false} StoppedIsServed(items: seq<Item>, stop: string, r: Reader)
    requires IsStopper(stop, r) && forall item <- items :: item.Line? ==> '\n' !in item.text
    ensures Served(items, Stopped(items, stop), r)
    decreases |items|
  {
    if items != [] {
      assert items[0] in items;
      StopperIsOneLine(stop, r);
      StoppedIsServed(items[1..], stop, r);
    }
  }

  lemma StoppedText(text: string, blocks: Blocks, depth: nat, stop: string, r: Reader)
    requires depth < MAX_INCLUDE_DEPTH && IsStopper(stop, r) && AllAre(blocks, Items(text, r), stop)
    ensures Expand(text, blocks, depth, r).Some?
    ensures Split(Expand(text, blocks, depth, r).value) == Stopped(Items(text, r), stop)
  {
    var items := Items(text, r);
    MarkersAreReadable(text, r);
    LinesAreLines(text, r);
    StoppedItems(items, blocks, depth, stop, r);
    JoinedIsSpread(Stopped(items, stop));
    StoppedLines(items, stop);
  }

  // The blocks with which a page shows itself: all it includes is the stopper.
  function AllStopped(page: string, stop: string, r: Reader): Blocks { map id | id in IdsOf(page, r) :: stop }

  lemma HarmLeavesAMarker(page: string, stop: string, r: Reader)
    requires IsStopper(stop, r) && !Harmless(Items(page, r), r)
    ensures var blocks := AllStopped(page, stop, r);
            SettledBlocks(blocks, r) && Expand(page, blocks, 0, r).Some? && !NoMarker(Expand(page, blocks, 0, r).value, r)
  {
    var blocks := AllStopped(page, stop, r);
    StopperIsOneLine(stop, r);
    StoppedText(page, blocks, 0, stop, r);
    HarmIsCaught(Items(page, r), stop, r);
    PlainLinesHaveNoMarker(Expand(page, blocks, 0, r).value, r);
  }

  /** A page keeps its promise with all blocks that leave no heading open if and only if none
      of its own headings is still open at an include. */
  lemma PageIsSafeExactly(page: string, stop: string, r: Reader)
    requires IsStopper(stop, r)
    ensures Harmless(Items(page, r), r) <==>
            forall blocks :: SettledBlocks(blocks, r) && Expand(page, blocks, 0, r).Some? ==>
                               NoMarker(Expand(page, blocks, 0, r).value, r)
  {
    if Harmless(Items(page, r), r) {
      forall blocks | SettledBlocks(blocks, r) && Expand(page, blocks, 0, r).Some?
        ensures NoMarker(Expand(page, blocks, 0, r).value, r)
      {
        NoMarkerIsLeft(page, blocks, r);
      }
    } else {
      HarmLeavesAMarker(page, stop, r);
    }
  }

  // A text that is left alone although its includes become the stopper has none.
  lemma {:induction false} LeftAloneHasNoMarker(text: string, stop: string, r: Reader)
    requires IsStopper(stop, r) && Split(text) == Stopped(Items(text, r), stop)
    ensures NoMarker(text, r)
    decreases |text|
  {
    var n, items := LineEnd(text), Items(text, r);
    SplitAtLineEnd(text);
    FirstItem(text, r);
    assert Split(text)[0] == text[..n];
    assert Stopped(items, stop)[0] == if items[0].Line? then items[0].text else stop;
    assert items[1..] == Following(text[n..], r);
    assert Stopped(items, stop)[1..] == Stopped(items[1..], stop);
    assert Split(text)[1..] == LinesAfter(text[n..]);
    if text[n..] != "" { LeftAloneHasNoMarker(text[n..][1..], stop, r); }
  }

  lemma SecondExpansionTells(text: string, blocks: Blocks, stop: string, r: Reader)
    requires IsStopper(stop, r) && forall id <- blocks :: blocks[id] == stop
    requires Expand(text, blocks, 0, r) == Some(text)
    ensures NoMarker(text, r)
  {
    var items := Items(text, r);
    forall item <- items | item.Include?
      ensures item.marker.id in blocks
    {
      var i :| 0 <= i < |items| && items[i] == item;
      if item.marker.id !in blocks { FailingItemFails(items, i, blocks, 0, r); }
    }
    StoppedText(text, blocks, 0, stop, r);
    LeftAloneHasNoMarker(text, stop, r);
  }

  /** And only then is expanding twice expanding once, with all such blocks. */
  lemma PageIsIdempotentExactly(page: string, stop: string, r: Reader)
    requires IsStopper(stop, r)
    ensures Harmless(Items(page, r), r) <==>
            forall blocks :: SettledBlocks(blocks, r) && Expand(page, blocks, 0, r).Some? ==>
                               Expand(Expand(page, blocks, 0, r).value, blocks, 0, r) == Expand(page, blocks, 0, r)
  {
    if Harmless(Items(page, r), r) {
      forall blocks | SettledBlocks(blocks, r) && Expand(page, blocks, 0, r).Some?
        ensures Expand(Expand(page, blocks, 0, r).value, blocks, 0, r) == Expand(page, blocks, 0, r)
      {
        ExpansionIsIdempotent(page, blocks, r);
      }
    } else {
      var blocks := AllStopped(page, stop, r);
      HarmLeavesAMarker(page, stop, r);
      var once := Expand(page, blocks, 0, r).value;
      if Expand(once, blocks, 0, r) == Some(once) { SecondExpansionTells(once, blocks, stop, r); }
    }
  }

  // A page that includes one block by a marker, before the stopper.
  predicate IncludesFirst(text: string, marker: Marker, stop: string, r: Matcher) {
    r.read(text + "\n" + stop) == Some(Found(marker, "\n" + stop))
  }

  lemma IncludeThenStop(text: string, marker: Marker, stop: string, r: Reader)
    requires IncludesFirst(text, marker, stop, r) && IsStopper(stop, r)
    ensures Items(text + "\n" + stop, r) == [Include(marker), Line(stop)]
  {
    StopperIsOneLine(stop, r);
    assert ("\n" + stop)[1..] == stop;
  }

  // The blocks with which a block shows itself: every other one it includes is the stopper.
  function Around(body: string, marker: Marker, stop: string, r: Reader): Blocks {
    (map id | id in IdsOf(r.adjust(body, marker), r) :: stop)[marker.id := body]
  }

  lemma IncludeThenLine(marker: Marker, stop: string, blocks: Blocks, r: Reader)
    requires marker.id in blocks && Expand(r.adjust(blocks[marker.id], marker), blocks, 1, r).Some?
    ensures var part := Expand(r.adjust(blocks[marker.id], marker), blocks, 1, r).value;
            ExpandItems([Include(marker), Line(stop)], blocks, 0, r) == Some([part, stop])
  {
    var items, part := [Include(marker), Line(stop)], Expand(r.adjust(blocks[marker.id], marker), blocks, 1, r).value;
    var rest := items[1..];
    assert rest == [Line(stop)] && rest[1..] == [];
    assert ExpandItem(rest[0], blocks, 0, r) == Some(stop) && ExpandItems(rest[1..], blocks, 0, r) == Some([]);
    assert ExpandItems(rest, blocks, 0, r) == Some([stop] + []);
    assert [stop] + [] == [stop];
    assert ExpandItem(items[0], blocks, 0, r) == Some(part);
    assert ExpandItems(items, blocks, 0, r) == Some([part] + [stop]);
    assert [part] + [stop] == [part, stop];
  }

  lemma AroundExpands(text: string, marker: Marker, body: string, stop: string, r: Reader)
    requires IncludesFirst(text, marker, stop, r) && IsStopper(stop, r) && marker.id !in IdsOf(r.adjust(body, marker), r)
    ensures var out := Expand(text + "\n" + stop, Around(body, marker, stop, r), 0, r);
            out.Some? && Split(out.value) == Stopped(Items(r.adjust(body, marker), r), stop) + [stop]
  {
    var fitted, blocks := r.adjust(body, marker), Around(body, marker, stop, r);
    StoppedText(fitted, blocks, 1, stop, r);
    var part := Expand(fitted, blocks, 1, r).value;
    IncludeThenStop(text, marker, stop, r);
    IncludeThenLine(marker, stop, blocks, r);
    StopperIsOneLine(stop, r);
    SplittingTwo(part, stop);
    assert [part, stop][1..] == [stop];
    assert Join([part, stop]) == part + "\n" + stop;
  }

  /** A block that does not include itself can be put before any line, in the way a marker
      fits it, if and only if it then has no heading open at an include or at its end. */
  lemma BlockIsSafeExactly(text: string, marker: Marker, body: string, stop: string, r: Reader)
    requires IncludesFirst(text, marker, stop, r) && IsStopper(stop, r) && marker.id !in IdsOf(r.adjust(body, marker), r)
    ensures var out := Expand(text + "\n" + stop, Around(body, marker, stop, r), 0, r);
            out.Some? && (NoMarker(out.value, r) <==> Settled(Items(r.adjust(body, marker), r), r))
  {
    var fitted := r.adjust(body, marker);
    var items := Items(fitted, r);
    var out := Expand(text + "\n" + stop, Around(body, marker, stop, r), 0, r);
    AroundExpands(text, marker, body, stop, r);
    PlainLinesHaveNoMarker(out.value, r);
    if !Settled(items, r) {
      UnsettledIsCaught(items, stop, r);
    } else {
      LinesAreLines(fitted, r);
      StoppedIsServed(items, stop, r);
      SettledStaysQuiet(fitted, Stopped(items, stop), r);
      StoppedLines(items, stop);
      StopperIsOneLine(stop, r);
      QuietFirst(Stopped(items, stop), [stop], r);
    }
  }
}
