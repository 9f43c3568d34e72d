// What fitting a block does: it moves the block's headings to the level a marker asks for and
// gives the first of them its title.

module DocsFitting {
  import opened Options
  import opened DocsLines
  import opened DocsShift
  import opened DocsText
  import opened DocsIncludes
  import opened DocsBuild

  // --- Stripping ---

  predicate OnlyNewlines(s: string) { forall c <- s :: c == '\n' }

  lemma {:induction false} LeadingNewlines(s: string) returns (before: string)
    ensures s == before + StripNewlinesLeft(s) && OnlyNewlines(before)
    ensures StripNewlinesLeft(s) == "" || StripNewlinesLeft(s)[0] != '\n'
    decreases |s|
  {
    if s != "" && s[0] == '\n' {
      before := LeadingNewlines(s[1..]);
      before := [s[0]] + before;
    } else {
      before := "";
    }
  }

  lemma {:induction false} TrailingNewlines(s: string) returns (after: string)
    ensures s == StripNewlinesRight(s) + after && OnlyNewlines(after)
    ensures var r := StripNewlinesRight(s); r == "" || r[|r| - 1] != '\n'
    decreases |s|
  {
    if s != "" && s[|s| - 1] == '\n' {
      after := TrailingNewlines(s[..|s| - 1]);
      after := after + [s[|s| - 1]];
    } else {
      after := "";
    }
  }

  lemma EndsAreStripped(body: string)
    ensures var r := StrippedBody(body);
            && (r == "" || (r[0] != '\n' && r[|r| - 1] != '\n'))
            && exists before, after :: body == before + r + after && OnlyNewlines(before) && OnlyNewlines(after)
  {
    var before := LeadingNewlines(body);
    var left := StripNewlinesLeft(body);
    var after := TrailingNewlines(left);
    var r := StripNewlinesRight(left);
    assert r != "" ==> r[0] == left[0];
    assert body == before + r + after;
  }

  /** A marker that asks for nothing puts the block in as it is, without the newlines at its
      ends. */
  lemma PlainFitting(body: string, id: string)
    ensures var r := Adjusted(body, Marker(id, None, ""));
            && (r == "" || (r[0] != '\n' && r[|r| - 1] != '\n'))
            && exists before, after :: body == before + r + after && OnlyNewlines(before) && OnlyNewlines(after)
  {
    EndsAreStripped(body);
    assert Adjusted(body, Marker(id, None, "")) == StrippedBody(body);
  }

  // --- The level ---

  lemma EmptyLineIsProse()
    ensures KindOf("") == Prose
  {
    TrimmedStays("");
  }

  lemma EmptyLineInFront(lines: seq<string>)
    ensures Top([""] + lines, MARKDOWN) == Top(lines, MARKDOWN)
  {
    EmptyLineIsProse();
    assert ([""] + lines)[1..] == lines;
    var levels := Levels([""] + lines, false, MARKDOWN);
    assert levels[1..] == Levels(lines, false, MARKDOWN);
  }

  lemma {:induction false} EmptyLineBehind(lines: seq<string>, inFence: bool)
    ensures Levels(lines + [""], inFence, MARKDOWN) == Levels(lines, inFence, MARKDOWN) + [0]
    decreases |lines|
  {
    EmptyLineIsProse();
    if lines == [] {
      assert lines + [""] == [""] && [""][1..] == [];
    } else {
      assert (lines + [""])[0] == lines[0] && (lines + [""])[1..] == lines[1..] + [""];
      EmptyLineBehind(lines[1..], inFence != KindOf(lines[0]).Fence?);
    }
  }

  lemma {:induction false} NothingBehind(levels: seq<nat>)
    ensures Shallowest(levels + [0]) == Shallowest(levels)
    decreases |levels|
  {
    if levels == [] {
      assert levels + [0] == [0] && [0][1..] == [];
    } else {
      assert (levels + [0])[0] == levels[0] && (levels + [0])[1..] == levels[1..] + [0];
      NothingBehind(levels[1..]);
    }
  }

  lemma {:induction false} LeadingNewlinesHoldNoHeading(s: string)
    ensures Top(Split(StripNewlinesLeft(s)), MARKDOWN) == Top(Split(s), MARKDOWN)
    decreases |s|
  {
    if s != "" && s[0] == '\n' {
      LeadingNewlinesHoldNoHeading(s[1..]);
      EmptyLineInFront(Split(s[1..]));
    }
  }

  lemma {:induction false} TrailingNewlinesHoldNoHeading(s: string)
    ensures Top(Split(StripNewlinesRight(s)), MARKDOWN) == Top(Split(s), MARKDOWN)
    decreases |s|
  {
    if s != "" && s[|s| - 1] == '\n' {
      var front := s[..|s| - 1];
      TrailingNewlinesHoldNoHeading(front);
      assert s == front + "\n" + "";
      SplittingTwo(front, "");
      EmptyLineBehind(Split(front), false);
      NothingBehind(Levels(Split(front), false, MARKDOWN));
    }
  }

  /** A block with a heading, put in with a level, has its shallowest heading there exactly
      when there is such a level; every heading moves with it. */
  lemma LevelIsApplied(body: string, id: string, level: nat)
    requires Top(Split(body), MARKDOWN) > 0
    ensures Top(Split(Adjusted(body, Marker(id, Some(level), ""))), MARKDOWN) == level <==> 1 <= level <= 6
  {
    LeadingNewlinesHoldNoHeading(body);
    TrailingNewlinesHoldNoHeading(StripNewlinesLeft(body));
    MarkdownShifts(StrippedBody(body), level);
  }

  // --- The title ---

  // An anchor, with the space before it, or nothing.
  predicate IsAnchor(s: string) { s == "" || (|s| > 3 && s[..3] == " {#" && s[|s| - 1] == '}') }

  lemma AnchorsAreAnchors(s: string)
    ensures IsAnchor(AnchorSuffix(s))
  {
    if AnchorSuffix(s) != "" {
      var k := SlugStart(s[..|s| - 1]);
      assert AnchorSuffix(s) == " " + s[k - 2..];
      assert s[..|s| - 1][k - 1] == s[k - 1] && s[..|s| - 1][k - 2] == s[k - 2];
      var anchor := s[k - 2..];
      assert anchor[0] == '{' && anchor[1] == '#' && anchor[|anchor| - 1] == '}';
      assert (" " + anchor)[..3] == " {#";
    }
  }

  // The first of these lines that reads as a heading, fenced or not.
  ghost predicate IsFirstHeading(lines: seq<string>, i: nat) {
    i < |lines| && KindOf(lines[i]).Heading? && forall j :: 0 <= j < i ==> !KindOf(lines[j]).Heading?
  }

  // What becomes of the first heading's line.
  ghost predicate IsTitled(line: string, before: string, title: string)
    requires KindOf(before).Heading?
  {
    exists anchor :: && IsAnchor(anchor) && anchor == AnchorSuffix(Strip(before))
                     && line == Repeat(KindOf(before).level) + " " + title + anchor
  }

  /** A block put in with a title has it in its first heading, at that heading's own level and
      with its own anchor, and is otherwise as it is without; one without a heading has it
      nowhere. */
  lemma TitleIsApplied(body: string, marker: Marker)
    requires marker.heading != ""
    ensures var plain := Adjusted(body, marker.(heading := ""));
            var lines := Split(plain);
            && ((forall i: nat :: !IsFirstHeading(lines, i)) ==> Adjusted(body, marker) == plain)
            && forall i: nat :: IsFirstHeading(lines, i) ==>
                 exists line :: && Adjusted(body, marker) == Join(lines[i := line])
                                && KindOf(lines[i]).Heading? && IsTitled(line, lines[i], marker.heading)
  {
    var text := Adjusted(body, marker.(heading := ""));
    var lines := Split(text);
    var i := FirstHeading(lines);
    assert text == ShiftedBody(body, marker);
    FirstHeadingIsFirst(lines);
    JoiningUndoesSplitting(text);
    if i < |lines| {
      var anchor := AnchorSuffix(Strip(lines[i]));
      AnchorsAreAnchors(Strip(lines[i]));
      assert IsFirstHeading(lines, i);
      assert forall k: nat :: IsFirstHeading(lines, k) ==> k == i;
      assert RetitledLine(lines[i], marker.heading) == Repeat(KindOf(lines[i]).level) + " " + marker.heading + anchor;
      assert IsTitled(RetitledLine(lines[i], marker.heading), lines[i], marker.heading);
    }
  }
}
