// Include expansion: blocks may include blocks, to a depth of 16. A marker is found in a
// text where a line starts and may run over several lines, because its heading runs to the
// next quote wherever that is.

module DocsIncludes {
  import opened Options
  import opened DocsLines

  const MAX_INCLUDE_DEPTH := 16

  datatype Marker = Marker(id: string, level: Option<nat>, heading: string)

  // A marker that starts a text, and the text after it.
  datatype Found = Found(marker: Marker, rest: string)

  // How a marker is read at the start of a text, and what is done to a block before it is
  // expanded in turn; and what decides about markers that run over lines: lines that open a
  // heading without closing it, lines with a quote, and lines whose first quote would be
  // followed by the end of a marker.
  datatype Matcher = Matcher(read: string -> Option<Found>, adjust: (string, Marker) -> string,
                             opens: string -> bool, quoted: string -> bool, closes: string -> bool)

  // What may follow a line: nothing, or a newline and more.
  predicate IsTail(tail: string) { tail == "" || tail[0] == '\n' }

  // The next line with a quote ends a marker whose heading is open; or it does not.
  predicate NextCloses(lines: seq<string>, m: Matcher) {
    lines != [] && if m.quoted(lines[0]) then m.closes(lines[0]) else NextCloses(lines[1..], m)
  }

  predicate NextSettles(lines: seq<string>, m: Matcher) {
    lines != [] && if m.quoted(lines[0]) then !m.closes(lines[0]) else NextSettles(lines[1..], m)
  }

  function LinesAfter(tail: string): seq<string> { if tail == "" then [] else Split(tail[1..]) }

  function Extended(found: Option<Found>, tail: string): Option<Found> {
    match found
    case None => None
    case Some(f) => Some(Found(f.marker, tail))
  }

  // A marker starts at a line by that line alone, unless the line opens a heading.
  predicate ReadsByLine(m: Matcher, line: string, tail: string) {
    '\n' !in line && IsTail(tail) ==>
      if m.opens(line) then m.read(line + tail).Some? <==> NextCloses(LinesAfter(tail), m)
      else m.read(line + tail) == Extended(m.read(line), tail)
  }

  predicate ReadsLines(m: Matcher, text: string) {
    m.read(text).Some? ==> |m.read(text).value.rest| < |text| && IsTail(m.read(text).value.rest)
  }

  ghost predicate Reads(m: Matcher) {
    (forall text :: ReadsLines(m, text)) && forall line, tail :: ReadsByLine(m, line, tail)
  }

  type Reader = m: Matcher | Reads(m)
    witness Matcher(_ => None, (body, _) => body, _ => false, _ => false, _ => false)

  type Blocks = map<string, string>

  // --- A text with its markers ---

  datatype Item = Line(text: string) | Include(marker: Marker)

  function LineEnd(text: string): (n: nat)
    ensures n <= |text| && '\n' !in text[..n] && IsTail(text[n..])
  {
    if text == "" || text[0] == '\n' then 0 else 1 + LineEnd(text[1..])
  }

  lemma {:induction false} LineEndOf(line: string, tail: string)
    requires '\n' !in line && IsTail(tail)
    ensures LineEnd(line + tail) == |line| && (line + tail)[..|line|] == line && (line + tail)[|line|..] == tail
    decreases |line|
  {
    if line != "" {
      assert (line + tail)[1..] == line[1..] + tail;
      LineEndOf(line[1..], tail);
    } else {
      assert line + tail == tail;
    }
  }

  // The lines of a text, with the markers in the places of the lines they take.
  function Items(text: string, r: Reader): (items: seq<Item>)
    ensures items != []
    decreases |text|, 1
  {
    assert ReadsLines(r, text);
    match r.read(text)
    case Some(found) => [Include(found.marker)] + Following(found.rest, r)
    case None => [Line(text[..LineEnd(text)])] + Following(text[LineEnd(text)..], r)
  }

  function Following(tail: string, r: Reader): seq<Item>
    requires IsTail(tail)
    decreases |tail|, 0
  {
    if tail == "" then [] else Items(tail[1..], r)
  }

  function Expand(text: string, blocks: Blocks, depth: nat, r: Reader): Option<string>
    decreases MAX_INCLUDE_DEPTH + 1 - depth, 1, 0
  {
    if depth > MAX_INCLUDE_DEPTH then None
    else match ExpandItems(Items(text, r), blocks, depth, r)
      case None => None
      case Some(parts) => Some(Join(parts))
  }

  function ExpandItems(items: seq<Item>, blocks: Blocks, depth: nat, r: Reader): (parts: Option<seq<string>>)
    requires depth <= MAX_INCLUDE_DEPTH
    ensures parts.Some? ==> |parts.value| == |items|
    decreases MAX_INCLUDE_DEPTH + 1 - depth, 0, |items|
  {
    if items == [] then Some([])
    else
      match ExpandItem(items[0], blocks, depth, r)
      case None => None
      case Some(part) =>
        match ExpandItems(items[1..], blocks, depth, r)
        case None => None
        case Some(parts) => Some([part] + parts)
  }

  function ExpandItem(item: Item, blocks: Blocks, depth: nat, r: Reader): Option<string>
    requires depth <= MAX_INCLUDE_DEPTH
    decreases MAX_INCLUDE_DEPTH + 1 - depth, 0, 0
  {
    match item
    case Line(text) => Some(text)
    case Include(marker) =>
      if marker.id !in blocks then None else Expand(r.adjust(blocks[marker.id], marker), blocks, depth + 1, r)
  }

  // --- When it fails ---

  // Markers each found in the fitted block of the one before, the first in the text.
  predicate Chain(text: string, markers: seq<Marker>, blocks: Blocks, r: Reader)
    decreases |markers|
  {
    && markers != [] && Include(markers[0]) in Items(text, r)
    && (|markers| > 1 ==>
          markers[0].id in blocks && Chain(r.adjust(blocks[markers[0].id], markers[0]), markers[1..], blocks, r))
  }

  // A chain that ends in an unknown block, or goes one below the deepest level there is.
  predicate Fatal(text: string, markers: seq<Marker>, blocks: Blocks, depth: nat, r: Reader) {
    && Chain(text, markers, blocks, r) && |markers| + depth <= MAX_INCLUDE_DEPTH + 1
    && (markers[|markers| - 1].id !in blocks || |markers| + depth == MAX_INCLUDE_DEPTH + 1)
  }

  lemma {:induction false} FailingItem(items: seq<Item>, blocks: Blocks, depth: nat, r: Reader) returns (i: nat)
    requires depth <= MAX_INCLUDE_DEPTH && ExpandItems(items, blocks, depth, r).None?
    ensures i < |items| && ExpandItem(items[i], blocks, depth, r).None?
    decreases |items|
  {
    if ExpandItem(items[0], blocks, depth, r).None? {
      i := 0;
    } else {
      i := FailingItem(items[1..], blocks, depth, r);
      i := i + 1;
    }
  }

  lemma {:induction false} FailureHasAChain(text: string, blocks: Blocks, depth: nat, r: Reader)
    returns (markers: seq<Marker>)
    requires depth <= MAX_INCLUDE_DEPTH && Expand(text, blocks, depth, r).None?
    ensures Fatal(text, markers, blocks, depth, r)
    decreases MAX_INCLUDE_DEPTH + 1 - depth
  {
    var items := Items(text, r);
    var i := FailingItem(items, blocks, depth, r);
    var marker := items[i].marker;
    assert Include(marker) in items;
    if marker.id !in blocks || depth == MAX_INCLUDE_DEPTH {
      markers := [marker];
    } else {
      var rest := FailureHasAChain(r.adjust(blocks[marker.id], marker), blocks, depth + 1, r);
      markers := [marker] + rest;
      assert markers[1..] == rest;
    }
  }

  lemma {:induction false} FailingItemFails(items: seq<Item>, i: nat, blocks: Blocks, depth: nat, r: Reader)
    requires depth <= MAX_INCLUDE_DEPTH && i < |items| && ExpandItem(items[i], blocks, depth, r).None?
    ensures ExpandItems(items, blocks, depth, r).None?
    decreases |items|
  {
    if i > 0 {
      assert items[1..][i - 1] == items[i];
      FailingItemFails(items[1..], i - 1, blocks, depth, r);
    }
  }

  lemma {:induction false} FatalChainFails(text: string, markers: seq<Marker>, blocks: Blocks, depth: nat, r: Reader)
    requires depth <= MAX_INCLUDE_DEPTH && Fatal(text, markers, blocks, depth, r)
    ensures Expand(text, blocks, depth, r).None?
    decreases |markers|
  {
    var items := Items(text, r);
    var i :| 0 <= i < |items| && items[i] == Include(markers[0]);
    if markers[0].id in blocks && depth < MAX_INCLUDE_DEPTH {
      assert |markers| > 1;
      FatalChainFails(r.adjust(blocks[markers[0].id], markers[0]), markers[1..], blocks, depth + 1, r);
    }
    FailingItemFails(items, i, blocks, depth, r);
  }

  /** Expansion fails exactly when some chain of includes from the page names a block there
      is not, or goes deeper than the limit; a cycle is such a chain. */
  lemma ExpansionFailsOnlyOnFatalChains(text: string, blocks: Blocks, r: Reader)
    ensures Expand(text, blocks, 0, r).None? <==> exists markers :: Fatal(text, markers, blocks, 0, r)
  {
    if Expand(text, blocks, 0, r).None? {
      var markers := FailureHasAChain(text, blocks, 0, r);
    }
    if markers :| Fatal(text, markers, blocks, 0, r) {
      FatalChainFails(text, markers, blocks, 0, r);
    }
  }

  // --- Texts without a marker ---

  ghost predicate NoMarker(text: string, r: Reader) { forall item <- Items(text, r) :: item.Line? }

  // No marker starts in these lines; and none does whatever follows them.
  predicate PlainLines(lines: seq<string>, r: Matcher) {
    lines == []
    || (r.read(lines[0]).None? && (r.opens(lines[0]) ==> !NextCloses(lines[1..], r)) && PlainLines(lines[1..], r))
  }

  predicate QuietLines(lines: seq<string>, r: Matcher) {
    lines == []
    || (r.read(lines[0]).None? && (r.opens(lines[0]) ==> NextSettles(lines[1..], r)) && QuietLines(lines[1..], r))
  }

  lemma SplitOfLineAndTail(line: string, tail: string)
    requires '\n' !in line && IsTail(tail)
    ensures Split(line + tail) == [line] + LinesAfter(tail)
  {
    SplittingALine(line);
    if tail == "" {
      assert line + tail == line;
    } else {
      assert line + tail == line + "\n" + tail[1..];
      SplittingTwo(line, tail[1..]);
    }
  }

  lemma SplitAtLineEnd(text: string)
    ensures var n := LineEnd(text);
            Split(text) == [text[..n]] + LinesAfter(text[n..]) && text == text[..n] + text[n..]
  {
    var n := LineEnd(text);
    assert text == text[..n] + text[n..];
    SplitOfLineAndTail(text[..n], text[n..]);
  }

  // How the first item of a text comes about, line by line.
  lemma FirstItem(text: string, r: Reader)
    ensures var n := LineEnd(text);
            if r.opens(text[..n]) then r.read(text).Some? <==> NextCloses(LinesAfter(text[n..]), r)
            else r.read(text) == Extended(r.read(text[..n]), text[n..])
  {
    SplitAtLineEnd(text);
    assert ReadsByLine(r, text[..LineEnd(text)], text[LineEnd(text)..]);
  }

  lemma OpeningIsNoMarkerAlone(line: string, r: Reader)
    requires '\n' !in line && r.opens(line)
    ensures r.read(line).None?
  {
    assert ReadsByLine(r, line, "");
    assert line + "" == line;
  }

  lemma {:induction false} PlainLinesHaveNoMarker(text: string, r: Reader)
    ensures PlainLines(Split(text), r) <==> NoMarker(text, r)
    decreases |text|
  {
    var n := LineEnd(text);
    var line, tail := text[..n], text[n..];
    SplitAtLineEnd(text);
    FirstItem(text, r);
    assert ReadsLines(r, text);
    if r.opens(line) { OpeningIsNoMarkerAlone(line, r); }
    assert Split(text)[1..] == LinesAfter(tail);
    if r.read(text).Some? {
      assert Include(r.read(text).value.marker) in Items(text, r);
    } else {
      assert Items(text, r) == [Line(line)] + Following(tail, r);
      if tail != "" { PlainLinesHaveNoMarker(tail[1..], r); }
    }
  }

  lemma {:induction false} TextWithoutMarkerIsItsLines(text: string, blocks: Blocks, depth: nat, r: Reader)
    requires NoMarker(text, r) && depth <= MAX_INCLUDE_DEPTH
    ensures ExpandItems(Items(text, r), blocks, depth, r) == Some(Split(text))
    decreases |text|
  {
    SplitAtLineEnd(text);
    assert Items(text, r)[0] in Items(text, r);
    var tail := text[LineEnd(text)..];
    assert Items(text, r)[1..] == Following(tail, r);
    if tail != "" {
      assert forall item <- Items(tail[1..], r) :: item in Items(text, r);
      TextWithoutMarkerIsItsLines(tail[1..], blocks, depth, r);
    }
  }

  /** A text without markers is its own expansion. */
  lemma TextWithoutMarkerStays(text: string, blocks: Blocks, depth: nat, r: Reader)
    requires NoMarker(text, r) && depth <= MAX_INCLUDE_DEPTH
    ensures Expand(text, blocks, depth, r) == Some(text)
  {
    TextWithoutMarkerIsItsLines(text, blocks, depth, r);
    JoiningUndoesSplitting(text);
  }

  // --- What includes become ---

  // Every include names a block that holds no marker once it is fitted.
  ghost predicate IncludesPlain(items: seq<Item>, blocks: Blocks, r: Reader) {
    forall item <- items :: item.Include? ==>
      item.marker.id in blocks && NoMarker(r.adjust(blocks[item.marker.id], item.marker), r)
  }

  // The lines, with the fitted blocks in the places of their markers.
  function Replaced(items: seq<Item>, blocks: Blocks, r: Reader): seq<string>
    requires forall item <- items :: item.Include? ==> item.marker.id in blocks
  {
    if items == [] then []
    else
      [match items[0]
       case Line(text) => text
       case Include(marker) => assert items[0] in items; r.adjust(blocks[marker.id], marker)]
      + Replaced(items[1..], blocks, r)
  }

  lemma {:induction false} ItemsAreReplaced(items: seq<Item>, blocks: Blocks, depth: nat, r: Reader)
    requires depth < MAX_INCLUDE_DEPTH && IncludesPlain(items, blocks, r)
    ensures ExpandItems(items, blocks, depth, r) == Some(Replaced(items, blocks, r))
    decreases |items|
  {
    if items != [] {
      assert items[0] in items;
      ItemsAreReplaced(items[1..], blocks, depth, r);
      if items[0].Include? {
        TextWithoutMarkerStays(r.adjust(blocks[items[0].marker.id], items[0].marker), blocks, depth + 1, r);
      }
    }
  }

  /** Expansion puts each block, fitted as its marker says, in the marker's place and leaves
      every other line as it is. */
  lemma IncludesAreReplaced(text: string, blocks: Blocks, depth: nat, r: Reader)
    requires depth < MAX_INCLUDE_DEPTH && IncludesPlain(Items(text, r), blocks, r)
    ensures Expand(text, blocks, depth, r) == Some(Join(Replaced(Items(text, r), blocks, r)))
  {
    ItemsAreReplaced(Items(text, r), blocks, depth, r);
  }
}
