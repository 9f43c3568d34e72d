// Tinting one shell line for the site: quoted strings and trailing comments, and nothing
// lost or added for whoever reads the page.

module ShellHighlight {
  import opened DocsText

  datatype Segment = Bare(text: string) | Quoted(text: string) | Comment(text: string)

  // The opening tags of the two spans, without their angles.
  datatype Theme = Theme(quoted: string, comment: string)

  const SITE := Theme("span class=\"tok-str\"", "span class=\"tok-comment\"")

  predicate Usable(theme: Theme) { '>' !in theme.quoted && '>' !in theme.comment }

  lemma SiteIsUsable()
    ensures Usable(SITE)
  {
    assert forall i :: 0 <= i < |SITE.quoted| ==> SITE.quoted[i] != '>';
    assert forall i :: 0 <= i < |SITE.comment| ==> SITE.comment[i] != '>';
  }

  // --- HTML ---

  function EscapedChar(c: char): string {
    if c == '&' then "&amp;" else if c == '<' then "&lt;" else if c == '>' then "&gt;" else [c]
  }

  // html.escape(text, quote=False)
  function Escape(text: string): string { if text == "" then "" else EscapedChar(text[0]) + Escape(text[1..]) }

  function Span(tag: string, text: string): string { "<" + tag + ">" + Escape(text) + "</span>" }

  function Html(segment: Segment, theme: Theme): string {
    match segment
    case Bare(text) => Escape(text)
    case Quoted(text) => Span(theme.quoted, text)
    case Comment(text) => Span(theme.comment, text)
  }

  function Page(segments: seq<Segment>, theme: Theme): string {
    if segments == [] then "" else Html(segments[0], theme) + Page(segments[1..], theme)
  }

  // What a reader of the page sees: tags are not shown, and entities are characters.
  function Shown(html: string): string { Seen(html, false) }

  function Seen(html: string, inTag: bool): string {
    if html == "" then ""
    else if inTag then Seen(html[1..], html[0] != '>')
    else if html[0] == '<' then Seen(html[1..], true)
    else if html[0] == '&' && |html| >= 5 && html[1] == 'a' && html[2] == 'm' && html[3] == 'p' && html[4] == ';' then
      "&" + Seen(html[5..], false)
    else if html[0] == '&' && |html| >= 4 && html[1] == 'l' && html[2] == 't' && html[3] == ';' then
      "<" + Seen(html[4..], false)
    else if html[0] == '&' && |html| >= 4 && html[1] == 'g' && html[2] == 't' && html[3] == ';' then
      ">" + Seen(html[4..], false)
    else [html[0]] + Seen(html[1..], false)
  }

  lemma EscapedCharIsSeen(c: char, rest: string)
    ensures Seen(EscapedChar(c) + rest, false) == [c] + Seen(rest, false)
  {
    var html := EscapedChar(c) + rest;
    assert html[|EscapedChar(c)|..] == rest;
  }

  lemma {:induction false} EscapedTextIsSeen(text: string, rest: string)
    ensures Seen(Escape(text) + rest, false) == text + Seen(rest, false)
    decreases |text|
  {
    if text == "" {
      assert Escape(text) + rest == rest;
    } else {
      var more := Escape(text[1..]) + rest;
      assert Escape(text) + rest == EscapedChar(text[0]) + more;
      EscapedCharIsSeen(text[0], more);
      EscapedTextIsSeen(text[1..], rest);
      assert text == [text[0]] + text[1..];
    }
  }

  lemma {:induction false} TagIsNotSeen(tag: string, rest: string)
    requires '>' !in tag
    ensures Seen(tag + ">" + rest, true) == Seen(rest, false)
    decreases |tag|
  {
    var html := tag + ">" + rest;
    if tag == "" {
      assert html[1..] == rest;
    } else {
      assert html[0] == tag[0] && html[1..] == tag[1..] + ">" + rest;
      TagIsNotSeen(tag[1..], rest);
    }
  }

  lemma SpanIsSeen(tag: string, text: string, rest: string)
    requires '>' !in tag
    ensures Seen(Span(tag, text) + rest, false) == text + Seen(rest, false)
  {
    var close := "</span>" + rest;
    var inner := Escape(text) + close;
    var html := Span(tag, text) + rest;
    assert html[0] == '<' && html[1..] == tag + ">" + inner;
    TagIsNotSeen(tag, inner);
    EscapedTextIsSeen(text, close);
    assert close[0] == '<' && close[1..] == "/span" + ">" + rest;
    TagIsNotSeen("/span", rest);
  }

  lemma SegmentIsSeen(segment: Segment, rest: string, theme: Theme)
    requires Usable(theme)
    ensures Seen(Html(segment, theme) + rest, false) == segment.text + Seen(rest, false)
  {
    match segment
    case Bare(text) => EscapedTextIsSeen(text, rest);
    case Quoted(text) => SpanIsSeen(theme.quoted, text, rest);
    case Comment(text) => SpanIsSeen(theme.comment, text, rest);
  }

  function TextOf(segments: seq<Segment>): string {
    if segments == [] then "" else segments[0].text + TextOf(segments[1..])
  }

  lemma {:induction false} PageShowsItsText(segments: seq<Segment>, theme: Theme)
    requires Usable(theme)
    ensures Shown(Page(segments, theme)) == TextOf(segments)
    decreases |segments|
  {
    if segments != [] {
      SegmentIsSeen(segments[0], Page(segments[1..], theme), theme);
      PageShowsItsText(segments[1..], theme);
    }
  }

  // --- Tinting ---

  predicate IsQuote(c: char) { c == '\'' || c == '"' }

  // A hash at a word boundary.
  predicate StartsComment(line: string, index: int) {
    0 <= index < |line| && line[index] == '#' && (index == 0 || IsSpace(line[index - 1]))
  }

  // No quote and no comment starts in this part of the line.
  predicate IsBare(line: string, from: int, to: int) {
    0 <= from && to <= |line| && forall i :: from <= i < to ==> !IsQuote(line[i]) && !StartsComment(line, i)
  }

  // What each segment of a line may be, where `at` is the place it starts.
  predicate Tinted(line: string, segment: Segment, at: nat)
    requires at + |segment.text| <= |line|
  {
    match segment
    case Bare(text) => text != "" && IsBare(line, at, at + |text|)
    case Quoted(text) =>
      && text != "" && IsQuote(text[0])
      && (forall i :: 1 <= i < |text| - 1 ==> text[i] != text[0])
      && (at + |text| == |line| || (|text| > 1 && text[|text| - 1] == text[0]))
    case Comment(text) => text != "" && at + |text| == |line| && StartsComment(line, at)
  }

  // Bare text is not cut in two.
  predicate Alternating(segments: seq<Segment>) {
    forall i :: 0 <= i < |segments| - 1 ==> !(segments[i].Bare? && segments[i + 1].Bare?)
  }

  predicate EndsBare(segments: seq<Segment>) { segments != [] && segments[|segments| - 1].Bare? }

  predicate AllTinted(line: string, segments: seq<Segment>, at: nat)
    decreases |segments|
  {
    segments == [] || (at + |segments[0].text| <= |line| && Tinted(line, segments[0], at)
                       && AllTinted(line, segments[1..], at + |segments[0].text|))
  }

  lemma {:induction false} PageGrows(segments: seq<Segment>, s: Segment, theme: Theme)
    ensures Page(segments + [s], theme) == Page(segments, theme) + Html(s, theme)
    decreases |segments|
  {
    if segments == [] {
      assert segments + [s] == [s] && [s][1..] == [];
      assert Page([s], theme) == Html(s, theme) + Page([], theme);
    } else {
      assert (segments + [s])[1..] == segments[1..] + [s];
      PageGrows(segments[1..], s, theme);
    }
  }

  lemma {:induction false} TextGrows(segments: seq<Segment>, s: Segment)
    ensures TextOf(segments + [s]) == TextOf(segments) + s.text
    decreases |segments|
  {
    if segments == [] {
      assert segments + [s] == [s] && [s][1..] == [];
      assert TextOf([s]) == s.text + TextOf([]);
    } else {
      assert (segments + [s])[1..] == segments[1..] + [s];
      TextGrows(segments[1..], s);
    }
  }

  lemma {:induction false} AppendTinted(line: string, segments: seq<Segment>, s: Segment, at: nat)
    requires AllTinted(line, segments, at)
    requires at + |TextOf(segments)| + |s.text| <= |line| && Tinted(line, s, at + |TextOf(segments)|)
    ensures AllTinted(line, segments + [s], at)
    decreases |segments|
  {
    if segments == [] {
      assert segments + [s] == [s];
    } else {
      assert (segments + [s])[1..] == segments[1..] + [s];
      AppendTinted(line, segments[1..], s, at + |segments[0].text|);
    }
  }

  // line.find(c, from), or the length of the line.
  function EndOfQuote(line: string, c: char, from: nat): (n: nat)
    requires from <= |line|
    ensures from <= n <= |line| && (forall i :: from <= i < n ==> line[i] != c) && (n < |line| ==> line[n] == c)
    decreases |line| - from
  {
    if from == |line| || line[from] == c then from else EndOfQuote(line, c, from + 1)
  }

  // The place after the quote at `end`, or the end of the line.
  function AfterQuote(line: string, end: nat): nat
    requires end <= |line|
  {
    if end == |line| then end else end + 1
  }

  lemma QuotedIsTinted(line: string, index: nat, end: nat, span: string)
    requires index < |line| && IsQuote(line[index]) && index + 1 <= end <= |line|
    requires (forall i :: index + 1 <= i < end ==> line[i] != line[index]) && (end < |line| ==> line[end] == line[index])
    requires span == line[index..AfterQuote(line, end)]
    ensures index + |span| == AfterQuote(line, end) && span + line[AfterQuote(line, end)..] == line[index..]
    ensures Tinted(line, Quoted(span), index)
  {
    assert forall i :: 0 <= i < |span| ==> span[i] == line[index + i];
  }

  // How far a scan has got: what is out, and the bare text collected since.
  ghost predicate Scanned(line: string, out: string, plain: string, segments: seq<Segment>, index: nat, theme: Theme) {
    && index <= |line| && out == Page(segments, theme) && AllTinted(line, segments, 0) && Alternating(segments)
    && TextOf(segments) + plain + line[index..] == line && IsBare(line, index - |plain|, index)
  }

  lemma ScannedSegment(line: string, out: string, segments: seq<Segment>, s: Segment, at: nat, theme: Theme)
    requires out == Page(segments, theme) && AllTinted(line, segments, 0) && Alternating(segments)
    requires !(EndsBare(segments) && s.Bare?)
    requires at + |s.text| <= |line| && TextOf(segments) + s.text + line[at + |s.text|..] == line && Tinted(line, s, at)
    ensures Scanned(line, out + Html(s, theme), "", segments + [s], at + |s.text|, theme)
  {
    assert |TextOf(segments)| == at;
    AppendTinted(line, segments, s, 0);
    AlternationGrows(segments, s);
    PageGrows(segments, s, theme);
    TextGrows(segments, s);
    assert TextOf(segments + [s]) + "" == TextOf(segments) + s.text;
  }

  lemma AlternationGrows(segments: seq<Segment>, s: Segment)
    requires Alternating(segments) && !(EndsBare(segments) && s.Bare?)
    ensures Alternating(segments + [s])
  {
  }

  lemma ScannedBare(line: string, plain: string, before: string, index: nat)
    requires index < |line| && before + plain + line[index..] == line
    ensures before + (plain + [line[index]]) + line[index + 1..] == line
  {
    assert line[index..] == [line[index]] + line[index + 1..];
    assert before + (plain + [line[index]]) + line[index + 1..] == before + plain + ([line[index]] + line[index + 1..]);
  }

  // Ends the bare text collected so far.
  method Flush(out: string, plain: string, ghost line: string, ghost segments: seq<Segment>, ghost index: nat, theme: Theme)
    returns (flushed: string, ghost after: seq<Segment>)
    requires Scanned(line, out, plain, segments, index, theme) && !EndsBare(segments)
    ensures Scanned(line, flushed, "", after, index, theme)
  {
    flushed, after := out, segments;
    if plain != "" {
      ScannedSegment(line, out, segments, Bare(plain), index - |plain|, theme);
      flushed, after := out + Escape(plain), segments + [Bare(plain)];
    }
  }

  lemma SpanFollows(before: string, span: string, rest: string, both: string)
    requires span + rest == both
    ensures before + span + rest == before + "" + both
  {
  }

  // Ends the bare text and puts a span behind it.
  method FlushAndAppend(out: string, plain: string, s: Segment, ghost line: string, ghost segments: seq<Segment>,
                        ghost index: nat, theme: Theme)
    returns (longer: string, ghost after: seq<Segment>)
    requires Scanned(line, out, plain, segments, index, theme) && !EndsBare(segments) && !s.Bare?
    requires index + |s.text| <= |line| && s.text + line[index + |s.text|..] == line[index..] && Tinted(line, s, index)
    ensures Scanned(line, longer, "", after, index + |s.text|, theme) && !EndsBare(after)
  {
    longer, after := Flush(out, plain, line, segments, index, theme);
    SpanFollows(TextOf(after), s.text, line[index + |s.text|..], line[index..]);
    ScannedSegment(line, longer, after, s, index, theme);
    longer, after := longer + Html(s, theme), after + [s];
  }

  method TintQuoted(line: string, out: string, plain: string, ghost segments: seq<Segment>, index: nat, theme: Theme)
    returns (longer: string, ghost after: seq<Segment>, next: nat)
    requires Scanned(line, out, plain, segments, index, theme) && !EndsBare(segments) && index < |line| && IsQuote(line[index])
    ensures Scanned(line, longer, "", after, next, theme) && !EndsBare(after) && index < next
  {
    var end := EndOfQuote(line, line[index], index + 1);
    next := AfterQuote(line, end);
    var span := line[index..next];
    QuotedIsTinted(line, index, end, span);
    longer, after := FlushAndAppend(out, plain, Quoted(span), line, segments, index, theme);
  }

  method TintComment(line: string, out: string, plain: string, ghost segments: seq<Segment>, index: nat, theme: Theme)
    returns (longer: string, ghost after: seq<Segment>)
    requires Scanned(line, out, plain, segments, index, theme) && !EndsBare(segments) && StartsComment(line, index)
    ensures Scanned(line, longer, "", after, |line|, theme)
  {
    assert line[index..] + line[|line|..] == line[index..];
    longer, after := FlushAndAppend(out, plain, Comment(line[index..]), line, segments, index, theme);
  }

  lemma ScannedOneMore(line: string, out: string, plain: string, segments: seq<Segment>, index: nat, theme: Theme)
    requires Scanned(line, out, plain, segments, index, theme) && index < |line|
    requires !IsQuote(line[index]) && !StartsComment(line, index)
    ensures Scanned(line, out, plain + [line[index]], segments, index + 1, theme)
  {
    ScannedBare(line, plain, TextOf(segments), index);
  }

  // The scan of a line into bare text, quoted spans and a trailing comment.
  method Tint(line: string, theme: Theme) returns (html: string, ghost segments: seq<Segment>)
    ensures Scanned(line, html, "", segments, |line|, theme)
  {
    var out, plain := "", "";
    var index := 0;
    segments := [];
    assert "" + "" + line[0..] == line;
    while index < |line|
      invariant 0 <= index <= |line|
      invariant Scanned(line, out, plain, segments, index, theme) && !EndsBare(segments)
    {
      var c := line[index];
      if IsQuote(c) {
        out, segments, index := TintQuoted(line, out, plain, segments, index, theme);
        plain := "";
      } else if c == '#' && (index == 0 || IsSpace(line[index - 1])) {
        html, segments := TintComment(line, out, plain, segments, index, theme);
        return;
      } else {
        ScannedOneMore(line, out, plain, segments, index, theme);
        plain := plain + [c];
        index := index + 1;
      }
    }
    html, segments := Flush(out, plain, line, segments, index, theme);
  }

  // What starts at a place, and where it ends, is settled by the line.
  lemma FirstIsSettled(line: string, a: seq<Segment>, b: seq<Segment>, at: nat)
    requires a != [] && b != [] && AllTinted(line, a, at) && AllTinted(line, b, at) && Alternating(a) && Alternating(b)
    requires at <= |line| && TextOf(a) == TextOf(b) == line[at..]
    ensures a[0] == b[0]
  {
    StartsAt(line, a, at);
    StartsAt(line, b, at);
    if a[0].Bare? && b[0].Bare? {
      if |a[0].text| < |b[0].text| { BareGoesOn(line, a, b, at); }
      if |b[0].text| < |a[0].text| { BareGoesOn(line, b, a, at); }
    }
    assert |a[0].text| == |b[0].text|;
  }

  lemma StartsAt(line: string, a: seq<Segment>, at: nat)
    requires a != [] && AllTinted(line, a, at) && at <= |line| && TextOf(a) == line[at..]
    ensures a[0].text == line[at..at + |a[0].text|] && TextOf(a[1..]) == line[at + |a[0].text|..]
  {
    assert a[0].text == TextOf(a)[..|a[0].text|];
    assert TextOf(a[1..]) == TextOf(a)[|a[0].text|..];
  }

  // Where bare text ends, something else starts or the line is over.
  lemma BareEnds(line: string, a: seq<Segment>, at: nat)
    requires a != [] && AllTinted(line, a, at) && Alternating(a) && a[0].Bare?
    requires at <= |line| && TextOf(a) == line[at..]
    ensures var next := at + |a[0].text|;
            next == |line| || (next < |line| && (IsQuote(line[next]) || StartsComment(line, next)))
  {
    StartsAt(line, a, at);
    if |a| > 1 {
      assert !a[1].Bare? && a[1..][0] == a[1];
      StartsAt(line, a[1..], at + |a[0].text|);
    }
  }

  lemma BareGoesOn(line: string, a: seq<Segment>, b: seq<Segment>, at: nat)
    requires a != [] && b != [] && AllTinted(line, a, at) && AllTinted(line, b, at) && Alternating(a)
    requires at <= |line| && TextOf(a) == TextOf(b) == line[at..] && a[0].Bare? && b[0].Bare?
    ensures |a[0].text| >= |b[0].text|
  {
    BareEnds(line, a, at);
    assert IsBare(line, at, at + |b[0].text|);
  }

  /** The rules leave no choice: one line has one division into bare text, quoted spans and
      a comment, so every hash at a word boundary outside quotes starts the comment. */
  lemma {:induction false} TintingIsUnique(line: string, a: seq<Segment>, b: seq<Segment>, at: nat)
    requires AllTinted(line, a, at) && AllTinted(line, b, at) && Alternating(a) && Alternating(b)
    requires at <= |line| && TextOf(a) == TextOf(b) == line[at..]
    ensures a == b
    decreases |a|
  {
    if at == |line| {
      assert a == [] && b == [];
    } else {
      FirstIsSettled(line, a, b, at);
      StartsAt(line, a, at);
      StartsAt(line, b, at);
      TintingIsUnique(line, a[1..], b[1..], at + |a[0].text|);
      assert a == [a[0]] + a[1..] && b == [b[0]] + b[1..];
    }
  }

  /** The page shows the line exactly as it was, whatever characters are in it; quoted spans
      and a trailing comment are set apart, and a comment starts at the first word boundary
      outside quotes with a hash behind it. */
  method HighlightShell(line: string, theme: Theme) returns (html: string, ghost segments: seq<Segment>)
    requires Usable(theme)
    ensures Shown(html) == line
    ensures html == Page(segments, theme) && TextOf(segments) == line && AllTinted(line, segments, 0) && Alternating(segments)
  {
    html, segments := Tint(line, theme);
    assert TextOf(segments) == TextOf(segments) + "" + line[|line|..];
    PageShowsItsText(segments, theme);
  }
}
