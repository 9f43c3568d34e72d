// The generator's include markers: <!-- include: id [level=N] [heading="..."] -->, read where
// a line starts. A heading runs to the next quote, across lines if need be.

module DocsMarkers {
  import opened Options
  import opened DocsLines
  import opened DocsText
  import opened DocsIncludes

  predicate IsSlugChar(c: char) {
    'a' <= c <= 'z' || 'A' <= c <= 'Z' || '0' <= c <= '9' || c == '_' || c == '-'
  }

  function After(s: string, prefix: string): Option<string> {
    if |prefix| <= |s| && s[..|prefix|] == prefix then Some(s[|prefix|..]) else None
  }

  function IdRun(s: string): (n: nat)
    ensures n <= |s|
  {
    if s != "" && IsSlugChar(s[0]) then 1 + IdRun(s[1..]) else 0
  }

  // Where the next quote is; the length of s when there is none.
  function QuoteAt(s: string): (n: nat)
    ensures n <= |s| && (n < |s| ==> s[n] == '"') && forall i :: 0 <= i < n ==> s[i] != '"'
  {
    if s == "" || s[0] == '"' then 0 else 1 + QuoteAt(s[1..])
  }

  const LEVEL := "level="
  const HEADING := "heading=\""

  // What follows blanks and a keyword.
  function Keyword(s: string, keyword: string): Option<string> {
    if s != "" && IsBlank(s[0]) then After(DropBlanks(s), keyword) else None
  }

  // The zeros of the decimal digits of Unicode 14 but for ASCII, each with its nine others
  // behind it.
  const ZEROS := [
    0x660, 0x6F0, 0x7C0, 0x966, 0x9E6, 0xA66, 0xAE6, 0xB66, 0xBE6, 0xC66, 0xCE6, 0xD66, 0xDE6, 0xE50, 0xED0,
    0xF20, 0x1040, 0x1090, 0x17E0, 0x1810, 0x1946, 0x19D0, 0x1A80, 0x1A90, 0x1B50, 0x1BB0, 0x1C40, 0x1C50, 0xA620,
    0xA8D0, 0xA900, 0xA9D0, 0xA9F0, 0xAA50, 0xABF0, 0xFF10, 0x104A0, 0x10D30, 0x11066, 0x110F0, 0x11136, 0x111D0,
    0x112F0, 0x11450, 0x114D0, 0x11650, 0x116C0, 0x11730, 0x118E0, 0x11950, 0x11C50, 0x11D50, 0x11DA0, 0x16A60,
    0x16AC0, 0x16B50, 0x1D7CE, 0x1D7D8, 0x1D7E2, 0x1D7EC, 0x1D7F6, 0x1E140, 0x1E2F0, 0x1E950, 0x1FBF0]

  // A decimal digit's value.
  function DigitIn(n: int, zeros: seq<int>): Option<nat> {
    if zeros == [] then None
    else if zeros[0] <= n < zeros[0] + 10 then Some(n - zeros[0])
    else DigitIn(n, zeros[1..])
  }

  function Digit(c: char): Option<nat> {
    if c < '0' then None else if c <= '9' then Some(c as int - '0' as int) else DigitIn(c as int, ZEROS)
  }

  // [ level=N] and what follows it.
  function ParseLevel(s: string): (Option<nat>, string) {
    match Keyword(s, LEVEL)
    case None => (None, s)
    case Some(rest) => if rest != "" && Digit(rest[0]).Some? then (Digit(rest[0]), rest[1..]) else (None, s)
  }

  // [ heading="..."] and what follows it.
  function ParseHeading(s: string): (string, string) {
    match Keyword(s, HEADING)
    case None => ("", s)
    case Some(rest) =>
      var n := QuoteAt(rest);
      if n < |rest| then (rest[..n], rest[n + 1..]) else ("", s)
  }

  // The end of a marker and of its line.
  function EndOfMarker(s: string): Option<string> {
    match After(DropBlanks(s), "-->")
    case None => None
    case Some(t) => if IsTail(DropBlanks(t)) then Some(DropBlanks(t)) else None
  }

  // What follows the start of a marker.
  function Opening(text: string): Option<string> {
    match After(DropBlanks(text), "<!--")
    case None => None
    case Some(comment) =>
      match After(DropBlanks(comment), "include:")
      case None => None
      case Some(named) => Some(DropBlanks(named))
  }

  // The end of a marker right behind an id that runs up to the dashes of it.
  function DashedEnd(s: string, n: nat): Option<string>
    requires n <= |s|
  {
    if n > 2 && s[n - 2..n] == "--" && n < |s| && s[n] == '>' && IsTail(DropBlanks(s[n + 1..]))
    then Some(DropBlanks(s[n + 1..])) else None
  }

  function ReadMarker(text: string): Option<Found> {
    match Opening(text)
    case None => None
    case Some(s) => if IdRun(s) == 0 then None else ReadNamed(s, IdRun(s))
  }

  // The rest of a marker whose id has n characters.
  function ReadNamed(s: string, n: nat): Option<Found>
    requires n <= |s|
  {
    var (level, afterLevel) := ParseLevel(s[n..]);
    var (heading, afterHeading) := ParseHeading(afterLevel);
    match EndOfMarker(afterHeading)
    case Some(rest) => Some(Found(Marker(s[..n], level, heading), rest))
    case None =>
      match DashedEnd(s, n)
      case Some(rest) => Some(Found(Marker(s[..n - 2], None, ""), rest))
      case None => None
  }

  // Lines that open a heading and do not close it, lines with a quote, and lines whose first
  // quote is followed by the end of a marker.
  predicate OpensHeading(line: string) {
    match Opening(line)
    case None => false
    case Some(s) => IdRun(s) > 0 && RunsOn(ParseLevel(s[IdRun(s)..]).1)
  }

  predicate RunsOn(s: string) {
    match Keyword(s, HEADING)
    case None => false
    case Some(rest) => QuoteAt(rest) == |rest|
  }

  predicate HasQuote(line: string) { QuoteAt(line) < |line| }

  predicate ClosesHeading(line: string) { HasQuote(line) && EndOfMarker(line[QuoteAt(line) + 1..]).Some? }

  function MatcherOf(adjust: (string, Marker) -> string): Matcher {
    Matcher(ReadMarker, adjust, OpensHeading, HasQuote, ClosesHeading)
  }

  // --- What a reading makes of what follows the line ---

  lemma {:induction false} DroppingStopsAtATail(s: string, tail: string)
    requires IsTail(tail)
    ensures DropBlanks(s + tail) == DropBlanks(s) + tail
    decreases |s|
  {
    if s == "" {
      assert s + tail == tail && DropBlanks(tail) == tail;
    } else {
      assert (s + tail)[0] == s[0] && (s + tail)[1..] == s[1..] + tail;
      if IsBlank(s[0]) { DroppingStopsAtATail(s[1..], tail); }
    }
  }

  lemma {:induction false} DroppingAddsNothing(s: string)
    ensures |DropBlanks(s)| <= |s| && ('\n' !in s ==> '\n' !in DropBlanks(s)) && ('"' !in s ==> '"' !in DropBlanks(s))
    decreases |s|
  {
    if s != "" && IsBlank(s[0]) { DroppingAddsNothing(s[1..]); }
  }

  function Longer(found: Option<string>, tail: string): Option<string> {
    match found
    case None => None
    case Some(s) => Some(s + tail)
  }

  lemma AfterStopsAtATail(s: string, tail: string, prefix: string)
    requires IsTail(tail) && '\n' !in prefix
    ensures After(s + tail, prefix) == Longer(After(s, prefix), tail)
  {
    var text := s + tail;
    if |prefix| <= |s| {
      assert text[..|prefix|] == s[..|prefix|] && text[|prefix|..] == s[|prefix|..] + tail;
    } else if |prefix| <= |text| {
      assert text[..|prefix|][|s|] == '\n';
    }
  }

  lemma {:induction false} IdStopsAtATail(s: string, tail: string)
    requires IsTail(tail)
    ensures IdRun(s + tail) == IdRun(s)
    decreases |s|
  {
    if s == "" {
      assert s + tail == tail;
    } else {
      assert (s + tail)[0] == s[0] && (s + tail)[1..] == s[1..] + tail;
      IdStopsAtATail(s[1..], tail);
    }
  }

  lemma {:induction false} QuoteBeforeATail(s: string, tail: string)
    ensures QuoteAt(s + tail) == if QuoteAt(s) < |s| then QuoteAt(s) else |s| + QuoteAt(tail)
    decreases |s|
  {
    if s == "" {
      assert s + tail == tail;
    } else {
      assert (s + tail)[0] == s[0] && (s + tail)[1..] == s[1..] + tail;
      if s[0] != '"' { QuoteBeforeATail(s[1..], tail); }
    }
  }

  lemma KeywordStopsAtATail(s: string, tail: string, keyword: string)
    requires IsTail(tail) && '\n' !in keyword
    ensures Keyword(s + tail, keyword) == Longer(Keyword(s, keyword), tail)
  {
    if s == "" {
      assert s + tail == tail;
    } else {
      assert (s + tail)[0] == s[0];
      DroppingStopsAtATail(s, tail);
      AfterStopsAtATail(DropBlanks(s), tail, keyword);
    }
  }

  lemma LevelStopsAtATail(s: string, tail: string)
    requires IsTail(tail)
    ensures ParseLevel(s + tail) == (ParseLevel(s).0, ParseLevel(s).1 + tail)
  {
    KeywordStopsAtATail(s, tail, LEVEL);
    var found := Keyword(s, LEVEL);
    if found.Some? {
      var rest := found.value;
      if rest == "" {
        assert rest + tail == tail;
      } else {
        assert (rest + tail)[0] == rest[0] && (rest + tail)[1..] == rest[1..] + tail;
      }
    }
  }

  lemma HeadingStopsAtATail(s: string, tail: string)
    requires IsTail(tail) && !RunsOn(s)
    ensures ParseHeading(s + tail) == (ParseHeading(s).0, ParseHeading(s).1 + tail)
  {
    KeywordStopsAtATail(s, tail, HEADING);
    var found := Keyword(s, HEADING);
    if found.Some? {
      var rest, n := found.value, QuoteAt(found.value);
      QuoteBeforeATail(rest, tail);
      assert (rest + tail)[..n] == rest[..n] && (rest + tail)[n + 1..] == rest[n + 1..] + tail;
    }
  }

  lemma EndStopsAtATail(s: string, tail: string)
    requires IsTail(tail) && '\n' !in s
    ensures EndOfMarker(s).Some? ==> EndOfMarker(s).value == ""
    ensures EndOfMarker(s + tail) == if EndOfMarker(s).Some? then Some(tail) else None
  {
    DroppingStopsAtATail(s, tail);
    DroppingAddsNothing(s);
    AfterStopsAtATail(DropBlanks(s), tail, "-->");
    var found := After(DropBlanks(s), "-->");
    if found.Some? {
      var t := found.value;
      DroppingStopsAtATail(t, tail);
      DroppingAddsNothing(t);
      assert "" + tail == tail;
      if DropBlanks(t) != "" { assert (DropBlanks(t) + tail)[0] == DropBlanks(t)[0]; }
    }
  }

  lemma OpeningStopsAtATail(line: string, tail: string)
    requires IsTail(tail)
    ensures Opening(line + tail) == Longer(Opening(line), tail)
  {
    DroppingStopsAtATail(line, tail);
    AfterStopsAtATail(DropBlanks(line), tail, "<!--");
    if After(DropBlanks(line), "<!--").Some? {
      var comment := After(DropBlanks(line), "<!--").value;
      DroppingStopsAtATail(comment, tail);
      AfterStopsAtATail(DropBlanks(comment), tail, "include:");
      if After(DropBlanks(comment), "include:").Some? {
        DroppingStopsAtATail(After(DropBlanks(comment), "include:").value, tail);
      }
    }
  }

  lemma OpeningIsOnItsLine(line: string)
    requires Opening(line).Some?
    ensures |Opening(line).value| < |line| && ('\n' !in line ==> '\n' !in Opening(line).value)
    ensures '"' !in line ==> '"' !in Opening(line).value
  {
    DroppingAddsNothing(line);
    var comment := After(DropBlanks(line), "<!--").value;
    DroppingAddsNothing(comment);
    DroppingAddsNothing(After(DropBlanks(comment), "include:").value);
  }

  lemma LevelIsOnItsLine(s: string)
    ensures |ParseLevel(s).1| <= |s| && ('\n' !in s ==> '\n' !in ParseLevel(s).1)
  {
    DroppingAddsNothing(s);
  }

  lemma HeadingIsBefore(s: string)
    ensures |ParseHeading(s).1| <= |s| && ('\n' !in s ==> '\n' !in ParseHeading(s).1)
  {
    DroppingAddsNothing(s);
  }

  lemma EndIsBefore(s: string)
    requires EndOfMarker(s).Some?
    ensures |EndOfMarker(s).value| < |s| && IsTail(EndOfMarker(s).value)
  {
    DroppingAddsNothing(s);
    DroppingAddsNothing(After(DropBlanks(s), "-->").value);
  }

  lemma MarkerEndsItsLine(text: string, adjust: (string, Marker) -> string)
    ensures ReadsLines(MatcherOf(adjust), text)
  {
    if ReadMarker(text).Some? {
      OpeningIsOnItsLine(text);
      var s := Opening(text).value;
      var n := IdRun(s);
      var afterLevel := ParseLevel(s[n..]).1;
      var afterHeading := ParseHeading(afterLevel).1;
      LevelIsOnItsLine(s[n..]);
      HeadingIsBefore(afterLevel);
      if EndOfMarker(afterHeading).Some? { EndIsBefore(afterHeading); } else { DroppingAddsNothing(s[n + 1..]); }
    }
  }

  lemma DashedEndStopsAtATail(s: string, n: nat, tail: string)
    requires n <= |s| && IsTail(tail) && '\n' !in s
    ensures DashedEnd(s, n).Some? ==> DashedEnd(s, n).value == ""
    ensures DashedEnd(s + tail, n) == if DashedEnd(s, n).Some? then Some(tail) else None
  {
    assert (s + tail)[..n] == s[..n];
    if n > 2 { assert (s + tail)[n - 2..n] == s[n - 2..n]; }
    if n < |s| {
      var rest := DropBlanks(s[n + 1..]);
      assert (s + tail)[n] == s[n] && (s + tail)[n + 1..] == s[n + 1..] + tail;
      DroppingStopsAtATail(s[n + 1..], tail);
      DroppingAddsNothing(s[n + 1..]);
      assert "" + tail == tail;
      if rest != "" { assert (rest + tail)[0] == rest[0]; }
    } else if n < |s + tail| {
      assert (s + tail)[n] == '\n';
    }
  }

  lemma NamedStopsAtATail(s: string, n: nat, tail: string)
    requires n <= |s| && IsTail(tail) && '\n' !in s && !RunsOn(ParseLevel(s[n..]).1)
    ensures ReadNamed(s + tail, n) == Extended(ReadNamed(s, n), tail)
  {
    var afterLevel := ParseLevel(s[n..]).1;
    var afterHeading := ParseHeading(afterLevel).1;
    assert (s + tail)[n..] == s[n..] + tail && (s + tail)[..n] == s[..n];
    if n > 2 { assert (s + tail)[..n - 2] == s[..n - 2]; }
    LevelStopsAtATail(s[n..], tail);
    LevelIsOnItsLine(s[n..]);
    HeadingStopsAtATail(afterLevel, tail);
    HeadingIsBefore(afterLevel);
    EndStopsAtATail(afterHeading, tail);
    DashedEndStopsAtATail(s, n, tail);
  }

  // Behind an open heading there is nothing else that ends a marker.
  lemma OpenHeadingEndsNothing(s: string, n: nat)
    requires n <= |s| && Keyword(ParseLevel(s[n..]).1, HEADING).Some?
    ensures EndOfMarker(ParseLevel(s[n..]).1).None? && DashedEnd(s, n).None?
  {
    var afterLevel := ParseLevel(s[n..]).1;
    assert HEADING[0] == 'h';
    assert DropBlanks(afterLevel)[..9][0] == 'h';
    assert DropBlanks(afterLevel)[0] == 'h';
    assert "-->"[0] == '-';
    assert |DropBlanks(afterLevel)| >= 3 ==> DropBlanks(afterLevel)[..3][0] == 'h';
    assert n < |s| ==> s[n..][0] == s[n];
  }

  // The next quote is followed by the end of a marker.
  predicate QuoteCloses(s: string) { QuoteAt(s) < |s| && EndOfMarker(s[QuoteAt(s) + 1..]).Some? }

  lemma NamedRunsOn(s: string, n: nat, tail: string)
    requires n <= |s| && IsTail(tail) && RunsOn(ParseLevel(s[n..]).1)
    ensures ReadNamed(s + tail, n).Some? <==> QuoteCloses(tail)
  {
    var afterLevel := ParseLevel(s[n..]).1;
    var rest := Keyword(afterLevel, HEADING).value;
    assert (s + tail)[n..] == s[n..] + tail;
    LevelStopsAtATail(s[n..], tail);
    KeywordStopsAtATail(afterLevel, tail, HEADING);
    QuoteBeforeATail(rest, tail);
    OpenHeadingEndsNothing(s + tail, n);
    if QuoteAt(tail) < |tail| { assert (rest + tail)[|rest| + QuoteAt(tail) + 1..] == tail[QuoteAt(tail) + 1..]; }
  }

  lemma QuoteOnALine(line: string, rest: string)
    requires '\n' !in line && IsTail(rest)
    ensures QuoteCloses(line + rest) <==> if HasQuote(line) then ClosesHeading(line) else QuoteCloses(rest)
  {
    QuoteBeforeATail(line, rest);
    var n := QuoteAt(line);
    if n < |line| {
      assert (line + rest)[n + 1..] == line[n + 1..] + rest;
      EndStopsAtATail(line[n + 1..], rest);
    } else if QuoteAt(rest) < |rest| {
      assert (line + rest)[n + QuoteAt(rest) + 1..] == rest[QuoteAt(rest) + 1..];
    }
  }

  lemma QuoteAfterNewline(text: string)
    ensures QuoteCloses("\n" + text) <==> QuoteCloses(text)
  {
    assert ("\n" + text)[1..] == text;
    var n := QuoteAt(text);
    if n < |text| { assert ("\n" + text)[n + 2..] == text[n + 1..]; }
  }

  // The next line with a quote decides.
  lemma {:induction false} NextQuoteIsOnALine(tail: string, m: Matcher)
    requires IsTail(tail) && m.quoted == HasQuote && m.closes == ClosesHeading
    ensures NextCloses(LinesAfter(tail), m) <==> QuoteCloses(tail)
    decreases |tail|
  {
    if tail != "" {
      var text := tail[1..];
      var line, rest := text[..LineEnd(text)], text[LineEnd(text)..];
      SplitAtLineEnd(text);
      assert tail == "\n" + text;
      QuoteAfterNewline(text);
      QuoteOnALine(line, rest);
      NextQuoteIsOnALine(rest, m);
      assert LinesAfter(tail)[0] == line && LinesAfter(tail)[1..] == LinesAfter(rest);
    }
  }

  lemma MarkersAreReadByLine(line: string, tail: string, adjust: (string, Marker) -> string)
    ensures ReadsByLine(MatcherOf(adjust), line, tail)
  {
    if '\n' !in line && IsTail(tail) {
      OpeningStopsAtATail(line, tail);
      if Opening(line).Some? {
        var s := Opening(line).value;
        OpeningIsOnItsLine(line);
        IdStopsAtATail(s, tail);
        if OpensHeading(line) {
          NamedRunsOn(s, IdRun(s), tail);
          NextQuoteIsOnALine(tail, MatcherOf(adjust));
        } else if IdRun(s) > 0 {
          NamedStopsAtATail(s, IdRun(s), tail);
        }
      }
    }
  }

  /** The generator's markers are read off one line each, but for the lines that open a
      heading and do not close it: such a line starts a marker exactly when the next quote
      in the text is followed by the end of one. */
  lemma MarkersAreRead(adjust: (string, Marker) -> string)
    ensures Reads(MatcherOf(adjust))
  {
    forall text
      ensures ReadsLines(MatcherOf(adjust), text)
    {
      MarkerEndsItsLine(text, adjust);
    }
    forall line, tail
      ensures ReadsByLine(MatcherOf(adjust), line, tail)
    {
      MarkersAreReadByLine(line, tail, adjust);
    }
  }

  // --- Markers as they are written ---

  predicate IsId(id: string) { id != "" && forall c <- id :: IsSlugChar(c) }

  // What a marker can say: an id, one digit, and a heading of any lines without a quote.
  predicate Writable(marker: Marker) {
    IsId(marker.id) && (marker.level.Some? ==> marker.level.value < 10) && '"' !in marker.heading
  }

  function LevelText(level: Option<nat>): string
    requires level.Some? ==> level.value < 10
  {
    match level
    case None => ""
    case Some(n) => " " + (LEVEL + [(0x30 + n) as char])
  }

  function HeadingText(heading: string): string { if heading == "" then "" else " " + (HEADING + (heading + "\"")) }

  const START := "<!-- include: "
  const END := " -->"

  function Written(marker: Marker): string
    requires Writable(marker)
  {
    START + (marker.id + (LevelText(marker.level) + (HeadingText(marker.heading) + END)))
  }

  lemma AfterReads(prefix: string, s: string)
    ensures After(prefix + s, prefix) == Some(s)
  {
    assert (prefix + s)[..|prefix|] == prefix && (prefix + s)[|prefix|..] == s;
  }

  lemma DroppingOneBlank(s: string)
    requires s == "" || !IsBlank(s[0])
    ensures DropBlanks(" " + s) == s && DropBlanks(s) == s
  {
    assert (" " + s)[0] == ' ' && (" " + s)[1..] == s;
  }

  lemma OpeningReads(s: string)
    requires s == "" || !IsBlank(s[0])
    ensures Opening(START + s) == Some(s)
  {
    var named := " " + s;
    var comment := " " + ("include:" + named);
    assert START + s == "<!--" + comment;
    AfterReads("<!--", comment);
    AfterReads("include:", named);
    DroppingOneBlank("include:" + named);
    DroppingOneBlank(s);
    assert DropBlanks("<!--" + comment) == "<!--" + comment;
  }

  lemma {:induction false} IdReads(id: string, rest: string)
    requires (forall c <- id :: IsSlugChar(c)) && (rest == "" || !IsSlugChar(rest[0]))
    ensures IdRun(id + rest) == |id|
    decreases |id|
  {
    if id == "" {
      assert id + rest == rest;
    } else {
      assert (id + rest)[0] == id[0] && (id + rest)[1..] == id[1..] + rest;
      IdReads(id[1..], rest);
    }
  }

  lemma KeywordReads(keyword: string, rest: string)
    requires keyword != "" && !IsBlank(keyword[0])
    ensures Keyword(" " + (keyword + rest), keyword) == Some(rest)
  {
    DroppingOneBlank(keyword + rest);
    AfterReads(keyword, rest);
  }

  lemma OtherKeyword(word: string, rest: string, keyword: string)
    requires word != "" && !IsBlank(word[0]) && keyword != "" && keyword[0] != word[0]
    ensures Keyword(" " + (word + rest), keyword) == None
  {
    DroppingOneBlank(word + rest);
    assert |keyword| <= |word + rest| ==> (word + rest)[..|keyword|][0] == word[0];
  }

  lemma EndReads(tail: string)
    requires IsTail(tail)
    ensures EndOfMarker(END + tail) == Some(tail)
    ensures Keyword(END + tail, LEVEL) == None && Keyword(END + tail, HEADING) == None
  {
    assert END + tail == " " + ("-->" + tail);
    DroppingOneBlank("-->" + tail);
    AfterReads("-->", tail);
    DroppingOneBlank(tail);
    OtherKeyword("-->", tail, LEVEL);
    OtherKeyword("-->", tail, HEADING);
  }

  lemma {:induction false} QuoteReads(heading: string, rest: string)
    requires '"' !in heading
    ensures QuoteAt(heading + ("\"" + rest)) == |heading|
    decreases |heading|
  {
    if heading == "" {
      assert heading + ("\"" + rest) == "\"" + rest;
    } else {
      assert (heading + ("\"" + rest))[0] == heading[0] && (heading + ("\"" + rest))[1..] == heading[1..] + ("\"" + rest);
      QuoteReads(heading[1..], rest);
    }
  }

  lemma QuotedHeadingReads(heading: string, rest: string)
    requires '"' !in heading && heading != ""
    ensures var s := HeadingText(heading) + rest; ParseHeading(s) == (heading, rest) && Keyword(s, LEVEL) == None
  {
    var quoted := heading + ("\"" + rest);
    HeadingTextBefore(heading, rest);
    KeywordReads(HEADING, quoted);
    OtherKeyword(HEADING, quoted, LEVEL);
    QuoteReads(heading, rest);
    assert quoted[..|heading|] == heading && quoted[|heading| + 1..] == rest;
  }

  lemma HeadingTextBefore(heading: string, rest: string)
    requires heading != ""
    ensures HeadingText(heading) + rest == " " + (HEADING + (heading + ("\"" + rest)))
  {
    assert (heading + "\"") + rest == heading + ("\"" + rest);
    assert (HEADING + (heading + "\"")) + rest == HEADING + (heading + ("\"" + rest));
  }

  lemma HeadingReads(heading: string, tail: string)
    requires '"' !in heading && IsTail(tail)
    ensures var s := HeadingText(heading) + (END + tail);
            ParseHeading(s) == (heading, END + tail) && Keyword(s, LEVEL) == None
  {
    EndReads(tail);
    if heading == "" {
      assert HeadingText(heading) + (END + tail) == END + tail;
    } else {
      QuotedHeadingReads(heading, END + tail);
    }
  }

  lemma LevelReads(level: Option<nat>, rest: string)
    requires (level.Some? ==> level.value < 10) && Keyword(rest, LEVEL) == None
    ensures ParseLevel(LevelText(level) + rest) == (level, rest)
  {
    if level.Some? {
      var digit := (0x30 + level.value) as char;
      assert LevelText(level) + rest == " " + (LEVEL + ([digit] + rest));
      KeywordReads(LEVEL, [digit] + rest);
      assert ([digit] + rest)[0] == digit && ([digit] + rest)[1..] == rest;
    } else {
      assert LevelText(level) + rest == rest;
    }
  }

  // What follows the id of a written marker.
  function Arguments(marker: Marker, tail: string): string
    requires Writable(marker)
  {
    LevelText(marker.level) + (HeadingText(marker.heading) + (END + tail))
  }

  lemma ArgumentsRead(marker: Marker, tail: string)
    requires Writable(marker) && IsTail(tail)
    ensures var afterLevel := HeadingText(marker.heading) + (END + tail);
            && ParseLevel(Arguments(marker, tail)) == (marker.level, afterLevel)
            && ParseHeading(afterLevel) == (marker.heading, END + tail)
    ensures EndOfMarker(END + tail) == Some(tail)
  {
    HeadingReads(marker.heading, tail);
    EndReads(tail);
    LevelReads(marker.level, HeadingText(marker.heading) + (END + tail));
  }

  lemma NamedReads(marker: Marker, tail: string)
    requires Writable(marker) && IsTail(tail)
    ensures ReadNamed(marker.id + Arguments(marker, tail), |marker.id|) == Some(Found(marker, tail))
  {
    var s := marker.id + Arguments(marker, tail);
    assert s[..|marker.id|] == marker.id && s[|marker.id|..] == Arguments(marker, tail);
    ArgumentsRead(marker, tail);
  }

  lemma BlankFollowsId(marker: Marker, tail: string)
    requires Writable(marker)
    ensures Arguments(marker, tail) != "" && Arguments(marker, tail)[0] == ' '
  {
  }

  lemma WrittenOpens(marker: Marker, tail: string)
    requires Writable(marker)
    ensures var s := marker.id + Arguments(marker, tail);
            Opening(Written(marker) + tail) == Some(s) && IdRun(s) == |marker.id|
  {
    var s := marker.id + Arguments(marker, tail);
    BlankFollowsId(marker, tail);
    assert marker.id[0] in marker.id;
    assert s[0] == marker.id[0];
    IdReads(marker.id, Arguments(marker, tail));
    WrittenBefore(marker, tail);
    OpeningReads(s);
  }

  lemma WrittenBefore(marker: Marker, tail: string)
    requires Writable(marker)
    ensures Written(marker) + tail == START + (marker.id + Arguments(marker, tail))
  {
    var level, heading := LevelText(marker.level), HeadingText(marker.heading);
    assert (heading + END) + tail == heading + (END + tail);
    assert (level + (heading + END)) + tail == level + (heading + (END + tail));
  }

  /** Every marker is read back as it was written, wherever the text goes on with a new line
      or ends; its heading may run over any lines. */
  lemma WrittenMarkersReadBack(marker: Marker, tail: string)
    requires Writable(marker) && IsTail(tail)
    ensures ReadMarker(Written(marker) + tail) == Some(Found(marker, tail))
  {
    WrittenOpens(marker, tail);
    NamedReads(marker, tail);
  }

  // The characters of what is written.
  lemma WrittenAddsNothing(marker: Marker, c: char)
    requires Writable(marker) && (c == '\n' || c == '"') && c !in HeadingText(marker.heading)
    ensures c !in Written(marker)
  {
    assert c !in marker.id;
    assert c !in LevelText(marker.level);
    assert c !in START && c !in END;
  }
}
