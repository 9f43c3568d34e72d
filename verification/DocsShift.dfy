// The documentation generator's text passes: lines, fences and headings, and moving a
// block's headings to the depth it is included at.

module DocsLines {

  // text.split("\n")
  function Split(text: string): (r: seq<string>)
    ensures r != []
  {
    if text == "" then [""]
    else if text[0] == '\n' then [""] + Split(text[1..])
    else Prefixed(text[0], Split(text[1..]))
  }

  function Prefixed(c: char, lines: seq<string>): (r: seq<string>)
    requires lines != []
    ensures r != []
  {
    [[c] + lines[0]] + lines[1..]
  }

  // "\n".join(lines)
  function Join(lines: seq<string>): string {
    if lines == [] then "" else if |lines| == 1 then lines[0] else lines[0] + "\n" + Join(lines[1..])
  }

  predicate AreLines(lines: seq<string>) { forall i :: 0 <= i < |lines| ==> '\n' !in lines[i] }

  lemma {:induction false} SplitMakesLines(text: string)
    ensures AreLines(Split(text))
    decreases |text|
  {
    if text != "" { SplitMakesLines(text[1..]); }
  }

  lemma JoinPrefixed(c: char, lines: seq<string>)
    requires lines != []
    ensures Join(Prefixed(c, lines)) == [c] + Join(lines)
  {
    var r := Prefixed(c, lines);
    assert r[0] == [c] + lines[0] && r[1..] == lines[1..];
    if |lines| > 1 {
      assert ([c] + lines[0]) + "\n" + Join(lines[1..]) == [c] + (lines[0] + "\n" + Join(lines[1..]));
    }
  }

  lemma JoinAfterNewline(lines: seq<string>)
    requires lines != []
    ensures Join([""] + lines) == "\n" + Join(lines)
  {
    var r := [""] + lines;
    assert r[1..] == lines;
    assert "" + "\n" + Join(lines) == "\n" + Join(lines);
  }

  lemma {:induction false} JoiningUndoesSplitting(text: string)
    ensures Join(Split(text)) == text
    decreases |text|
  {
    if text != "" {
      JoiningUndoesSplitting(text[1..]);
      assert text == [text[0]] + text[1..];
      if text[0] == '\n' {
        JoinAfterNewline(Split(text[1..]));
      } else {
        JoinPrefixed(text[0], Split(text[1..]));
      }
    }
  }

  lemma {:induction false} SplittingALine(line: string)
    requires '\n' !in line
    ensures Split(line) == [line]
    decreases |line|
  {
    if line != "" {
      SplittingALine(line[1..]);
      assert line == [line[0]] + line[1..];
    }
  }

  lemma {:induction false} SplittingTwo(a: string, b: string)
    ensures Split(a + "\n" + b) == Split(a) + Split(b)
    decreases |a|
  {
    var text := a + "\n" + b;
    if a == "" {
      assert text[1..] == b;
    } else {
      assert text[0] == a[0] && text[1..] == a[1..] + "\n" + b;
      SplittingTwo(a[1..], b);
      PrefixedConcat(a[0], Split(a[1..]), Split(b));
      if a[0] == '\n' { assert [""] + (Split(a[1..]) + Split(b)) == [""] + Split(a[1..]) + Split(b); }
    }
  }

  lemma PrefixedConcat(c: char, xs: seq<string>, ys: seq<string>)
    requires xs != []
    ensures Prefixed(c, xs + ys) == Prefixed(c, xs) + ys
  {
    assert (xs + ys)[0] == xs[0] && (xs + ys)[1..] == xs[1..] + ys;
  }

  lemma {:induction false} SplittingUndoesJoining(lines: seq<string>)
    requires lines != [] && AreLines(lines)
    ensures Split(Join(lines)) == lines
    decreases |lines|
  {
    SplittingALine(lines[0]);
    if |lines| > 1 {
      SplittingTwo(lines[0], Join(lines[1..]));
      SplittingUndoesJoining(lines[1..]);
      assert lines == [lines[0]] + lines[1..];
    } else {
      assert lines == [lines[0]];
    }
  }

  lemma JoinIsInjective(a: seq<string>, b: seq<string>)
    requires a != [] && b != [] && AreLines(a) && AreLines(b)
    ensures Join(a) == Join(b) <==> a == b
  {
    SplittingUndoesJoining(a);
    SplittingUndoesJoining(b);
  }
}

// Moving the headings of a text, whatever tells a heading and rewrites one.
module DocsShift {
  import opened DocsLines

  datatype Kind = Fence | Heading(level: nat) | Prose

  // How a line is read, and how a heading is written at another level.
  datatype Markup = Markup(kind: string -> Kind, body: string -> string, relevel: (string, nat) -> string)

  // A heading has one of six levels, and written at another level it is a heading of that
  // level with the same text, wherever it was before.
  ghost predicate Coherent(m: Markup) {
    && (forall line :: m.kind(line).Heading? ==> 1 <= m.kind(line).level <= 6)
    && (forall line, level: nat {:trigger m.relevel(line, level)} :: m.kind(line).Heading? && 1 <= level <= 6 ==>
          var r := m.relevel(line, level);
          m.kind(r) == Heading(level) && m.body(r) == m.body(line) && ('\n' !in line ==> '\n' !in r))
    && (forall line, a: nat, b: nat {:trigger m.relevel(m.relevel(line, a), b)} ::
          m.kind(line).Heading? && 1 <= a <= 6 ==> m.relevel(m.relevel(line, a), b) == m.relevel(line, b))
  }

  // --- Levels ---

  // The level a line counts with: 0 for a fence, fenced code and everything but a heading.
  function LevelHere(kind: Kind, inFence: bool): nat { if kind.Heading? && !inFence then kind.level else 0 }

  function Levels(lines: seq<string>, inFence: bool, m: Markup): (r: seq<nat>)
    ensures |r| == |lines|
  {
    if lines == [] then []
    else
      var kind := m.kind(lines[0]);
      [LevelHere(kind, inFence)] + Levels(lines[1..], inFence != kind.Fence?, m)
  }

  // The least level there is; 0 when there is none.
  function Shallowest(levels: seq<nat>): nat {
    if levels == [] then 0
    else Shallower(levels[0], Shallowest(levels[1..]))
  }

  function Shallower(a: nat, b: nat): nat { if a == 0 || (0 < b <= a) then b else a }

  predicate Between(levels: seq<nat>, least: nat, most: nat) {
    levels == [] || ((levels[0] == 0 || least <= levels[0] <= most) && Between(levels[1..], least, most))
  }

  lemma {:induction false} LowerBoundsAreKept(levels: seq<nat>, least: nat, lower: nat, most: nat)
    requires Between(levels, least, most) && lower <= least
    ensures Between(levels, lower, most)
    decreases |levels|
  {
    if levels != [] { LowerBoundsAreKept(levels[1..], least, lower, most); }
  }

  lemma {:induction false} ShallowestIsLeast(levels: seq<nat>)
    requires Between(levels, 0, 6)
    ensures Shallowest(levels) <= 6 && Between(levels, Shallowest(levels), 6)
    ensures Shallowest(levels) > 0 ==> Shallowest(levels) in levels
    decreases |levels|
  {
    if levels != [] {
      var rest := Shallowest(levels[1..]);
      ShallowestIsLeast(levels[1..]);
      if levels[0] > 0 && rest > levels[0] { LowerBoundsAreKept(levels[1..], rest, levels[0], 6); }
      if rest == 0 { NoneIsBetweenAll(levels[1..], Shallowest(levels)); }
    }
  }

  lemma {:induction false} NoneIsBetweenAll(levels: seq<nat>, least: nat)
    requires Shallowest(levels) == 0
    ensures Between(levels, least, 6)
    decreases |levels|
  {
    if levels != [] { NoneIsBetweenAll(levels[1..], least); }
  }

  lemma {:induction false} LevelsAreLevels(lines: seq<string>, inFence: bool, m: Markup)
    requires Coherent(m)
    ensures Between(Levels(lines, inFence, m), 0, 6)
    decreases |lines|
  {
    if lines != [] { LevelsAreLevels(lines[1..], inFence != m.kind(lines[0]).Fence?, m); }
  }

  function Clamp(level: int): (n: nat)
    ensures 1 <= n <= 6
  {
    if level > 6 then 6 else if level < 1 then 1 else level
  }

  function MovedLevel(level: nat, delta: int): nat { if level > 0 then Clamp(level + delta) else 0 }

  function Moved(levels: seq<nat>, delta: int): seq<nat> {
    if levels == [] then [] else [MovedLevel(levels[0], delta)] + Moved(levels[1..], delta)
  }

  lemma {:induction false} ShallowestMoves(levels: seq<nat>, delta: int)
    ensures Shallowest(Moved(levels, delta)) == MovedLevel(Shallowest(levels), delta)
    decreases |levels|
  {
    if levels != [] {
      var moved := Moved(levels, delta);
      assert moved[0] == MovedLevel(levels[0], delta) && moved[1..] == Moved(levels[1..], delta);
      ShallowestMoves(levels[1..], delta);
    }
  }

  // --- The passes ---

  function Top(lines: seq<string>, m: Markup): nat { Shallowest(Levels(lines, false, m)) }

  function ShiftedLine(line: string, level: nat, delta: int, m: Markup): string {
    if level > 0 then m.relevel(line, Clamp(level + delta)) else line
  }

  function ShiftedLines(lines: seq<string>, inFence: bool, delta: int, m: Markup): (r: seq<string>)
    ensures |r| == |lines|
  {
    if lines == [] then []
    else
      var kind := m.kind(lines[0]);
      [ShiftedLine(lines[0], LevelHere(kind, inFence), delta, m)] + ShiftedLines(lines[1..], inFence != kind.Fence?, delta, m)
  }

  // The lines with their shallowest heading moved to a level, if they have one.
  function Passed(lines: seq<string>, top: nat, m: Markup): (r: seq<string>)
    ensures |r| == |lines|
  {
    if Top(lines, m) == 0 || Top(lines, m) == top then lines else ShiftedLines(lines, false, top - Top(lines, m), m)
  }

  function Shifted(text: string, top: nat, m: Markup): string { Join(Passed(Split(text), top, m)) }

  method ShallowestOf(lines: seq<string>, m: Markup) returns (least: nat)
    ensures least == Top(lines, m)
  {
    var inFence := false;
    least := 0;
    for i := 0 to |lines|
      invariant Shallower(least, Shallowest(Levels(lines[i..], inFence, m))) == Shallowest(Levels(lines, false, m))
    {
      assert lines[i..][1..] == lines[i + 1..];
      var kind := m.kind(lines[i]);
      var level := LevelHere(kind, inFence);
      LevelsGoOn(lines[i..], inFence, m);
      if kind.Fence? { inFence := !inFence; }
      if level > 0 && (least == 0 || level < least) { least := level; }
    }
  }

  lemma LevelsGoOn(lines: seq<string>, inFence: bool, m: Markup)
    requires lines != []
    ensures Shallowest(Levels(lines, inFence, m))
            == Shallower(LevelHere(m.kind(lines[0]), inFence),
                         Shallowest(Levels(lines[1..], inFence != m.kind(lines[0]).Fence?, m)))
  {
    var levels := Levels(lines, inFence, m);
    assert levels[1..] == Levels(lines[1..], inFence != m.kind(lines[0]).Fence?, m);
  }

  lemma ShiftedLinesGoOn(out: seq<string>, lines: seq<string>, inFence: bool, delta: int, m: Markup)
    requires lines != []
    ensures var kind := m.kind(lines[0]);
            out + ShiftedLines(lines, inFence, delta, m)
            == (out + [ShiftedLine(lines[0], LevelHere(kind, inFence), delta, m)])
               + ShiftedLines(lines[1..], inFence != kind.Fence?, delta, m)
  {
  }

  method MoveHeadings(lines: seq<string>, delta: int, m: Markup) returns (out: seq<string>)
    ensures out == ShiftedLines(lines, false, delta, m)
  {
    var inFence := false;
    out := [];
    for i := 0 to |lines|
      invariant out + ShiftedLines(lines[i..], inFence, delta, m) == ShiftedLines(lines, false, delta, m)
    {
      ShiftedLinesGoOn(out, lines[i..], inFence, delta, m);
      assert lines[i..][1..] == lines[i + 1..];
      var kind := m.kind(lines[i]);
      var level := LevelHere(kind, inFence);
      if kind.Fence? { inFence := !inFence; }
      out := out + [ShiftedLine(lines[i], level, delta, m)];
    }
  }

  method ShiftHeadings(text: string, top: nat, m: Markup) returns (r: string)
    ensures r == Shifted(text, top, m)
  {
    JoiningUndoesSplitting(text);
    var lines := Split(text);
    var least := ShallowestOf(lines, m);
    if least == 0 { return text; }
    var delta := top - least;
    if delta == 0 { return text; }
    var out := MoveHeadings(lines, delta, m);
    r := Join(out);
  }

  // --- What moving headings does ---

  lemma ShiftedLineIsOne(line: string, inFence: bool, delta: int, m: Markup)
    requires Coherent(m)
    ensures var level := LevelHere(m.kind(line), inFence);
            var r := ShiftedLine(line, level, delta, m);
            && LevelHere(m.kind(r), inFence) == MovedLevel(level, delta)
            && m.kind(r).Fence? == m.kind(line).Fence?
            && ('\n' !in line ==> '\n' !in r)
            && m.body(r) == m.body(line) && (level == 0 ==> r == line)
  {
    var level := LevelHere(m.kind(line), inFence);
    if level > 0 { assert m.relevel(line, Clamp(level + delta)) == ShiftedLine(line, level, delta, m); }
  }

  /** Every heading moves by the same amount, within one and six. */
  lemma {:induction false} HeadingsMoveTogether(lines: seq<string>, inFence: bool, delta: int, m: Markup)
    requires Coherent(m)
    ensures Levels(ShiftedLines(lines, inFence, delta, m), inFence, m) == Moved(Levels(lines, inFence, m), delta)
    decreases |lines|
  {
    if lines != [] {
      ShiftedLineIsOne(lines[0], inFence, delta, m);
      var after := inFence != m.kind(lines[0]).Fence?;
      HeadingsMoveTogether(lines[1..], after, delta, m);
      var r := ShiftedLines(lines, inFence, delta, m);
      assert r[1..] == ShiftedLines(lines[1..], after, delta, m);
      assert Levels(lines, inFence, m)[1..] == Levels(lines[1..], after, m);
    }
  }

  /** A heading keeps its text; every other line, fenced or not, stays as it is. */
  lemma {:induction false} OtherTextStays(lines: seq<string>, inFence: bool, delta: int, m: Markup, i: nat)
    requires Coherent(m) && i < |lines|
    ensures var r := ShiftedLines(lines, inFence, delta, m);
            && m.body(r[i]) == m.body(lines[i])
            && (Levels(lines, inFence, m)[i] == 0 ==> r[i] == lines[i])
            && ('\n' !in lines[i] ==> '\n' !in r[i])
    decreases i
  {
    ShiftedLineIsOne(lines[0], inFence, delta, m);
    if i > 0 {
      OtherTextStays(lines[1..], inFence != m.kind(lines[0]).Fence?, delta, m, i - 1);
      assert lines[1..][i - 1] == lines[i];
    }
  }

  lemma ShiftedLinesSplitAgain(lines: seq<string>, inFence: bool, delta: int, m: Markup)
    requires Coherent(m) && lines != [] && AreLines(lines)
    ensures AreLines(ShiftedLines(lines, inFence, delta, m))
    ensures Split(Join(ShiftedLines(lines, inFence, delta, m))) == ShiftedLines(lines, inFence, delta, m)
  {
    var r := ShiftedLines(lines, inFence, delta, m);
    forall i | 0 <= i < |r|
      ensures '\n' !in r[i]
    {
      OtherTextStays(lines, inFence, delta, m, i);
    }
    SplittingUndoesJoining(r);
  }

  lemma PassedLevels(lines: seq<string>, top: nat, m: Markup)
    requires Coherent(m) && Top(lines, m) > 0 && Top(lines, m) != top
    ensures Top(Passed(lines, top, m), m) == Clamp(top)
  {
    HeadingsMoveTogether(lines, false, top - Top(lines, m), m);
    ShallowestMoves(Levels(lines, false, m), top - Top(lines, m));
  }

  lemma TopIsALevel(lines: seq<string>, m: Markup)
    requires Coherent(m)
    ensures Top(lines, m) <= 6 && Between(Levels(lines, false, m), Top(lines, m), 6)
  {
    LevelsAreLevels(lines, false, m);
    ShallowestIsLeast(Levels(lines, false, m));
  }

  lemma PassedLinesAreLines(lines: seq<string>, top: nat, m: Markup)
    requires Coherent(m) && lines != [] && AreLines(lines)
    ensures AreLines(Passed(lines, top, m)) && Split(Join(Passed(lines, top, m))) == Passed(lines, top, m)
  {
    ShiftedLinesSplitAgain(lines, false, top - Top(lines, m), m);
    SplittingUndoesJoining(lines);
  }

  // Working on the text is working on its lines.
  lemma SplitOfShifted(text: string, top: nat, m: Markup)
    requires Coherent(m)
    ensures Split(Shifted(text, top, m)) == Passed(Split(text), top, m)
  {
    SplitMakesLines(text);
    PassedLinesAreLines(Split(text), top, m);
  }

  /** A block with a heading ends with its shallowest one at the level asked for exactly when
      that is a level there is, one to six. */
  lemma ShiftingSetsTheTop(text: string, top: nat, m: Markup)
    requires Coherent(m) && Top(Split(text), m) > 0
    ensures Top(Split(Shifted(text, top, m)), m) == top <==> 1 <= top <= 6
  {
    SplitOfShifted(text, top, m);
    if Top(Split(text), m) != top { PassedLevels(Split(text), top, m); } else { TopIsALevel(Split(text), m); }
  }

  // Levels that a second move leaves where the first put them.
  predicate StayPut(levels: seq<nat>, delta: int, more: int) {
    levels == []
    || (MovedLevel(MovedLevel(levels[0], delta), more) == MovedLevel(levels[0], delta) && StayPut(levels[1..], delta, more))
  }

  lemma LineShiftedTwice(line: string, inFence: bool, delta: int, more: int, m: Markup)
    requires Coherent(m)
    ensures var level := LevelHere(m.kind(line), inFence);
            var once := ShiftedLine(line, level, delta, m);
            ShiftedLine(once, LevelHere(m.kind(once), inFence), more, m) == once <==>
            MovedLevel(MovedLevel(level, delta), more) == MovedLevel(level, delta)
  {
    var level := LevelHere(m.kind(line), inFence);
    if level > 0 {
      var a, b := Clamp(level + delta), Clamp(Clamp(level + delta) + more);
      assert m.relevel(m.relevel(line, a), b) == m.relevel(line, b);
      assert m.kind(m.relevel(line, a)) == Heading(a) && m.kind(m.relevel(line, b)) == Heading(b);
    }
  }

  // Lines shifted twice stay as the first pass left them exactly when their levels do.
  lemma {:induction false} LinesShiftedTwice(lines: seq<string>, inFence: bool, delta: int, more: int, m: Markup)
    requires Coherent(m)
    ensures var r := ShiftedLines(lines, inFence, delta, m);
            ShiftedLines(r, inFence, more, m) == r <==> StayPut(Levels(lines, inFence, m), delta, more)
    decreases |lines|
  {
    if lines != [] {
      var after := inFence != m.kind(lines[0]).Fence?;
      var r := ShiftedLines(lines, inFence, delta, m);
      var rest := ShiftedLines(lines[1..], after, delta, m);
      ShiftedLineIsOne(lines[0], inFence, delta, m);
      LineShiftedTwice(lines[0], inFence, delta, more, m);
      LinesShiftedTwice(lines[1..], after, delta, more, m);
      assert r[1..] == rest && Levels(lines, inFence, m)[1..] == Levels(lines[1..], after, m);
      HeadAndTail(ShiftedLines(r, inFence, more, m), r);
    }
  }

  lemma HeadAndTail(a: seq<string>, b: seq<string>)
    requires a != [] && b != []
    ensures a == b <==> a[0] == b[0] && a[1..] == b[1..]
  {
    assert a == [a[0]] + a[1..] && b == [b[0]] + b[1..];
  }

  predicate NoneDeeper(levels: seq<nat>, most: nat) {
    levels == [] || (levels[0] <= most && NoneDeeper(levels[1..], most))
  }

  // Which levels a second pass at a level that is none leaves alone.
  lemma {:induction false} LevelsStay(levels: seq<nat>, least: nat, top: nat)
    requires least > 0 && (top == 0 || top > 6) && Between(levels, least, 6)
    ensures StayPut(levels, top - least, top - Clamp(top)) <==> top >= 1 || NoneDeeper(levels, least + 1)
    decreases |levels|
  {
    if levels != [] { LevelsStay(levels[1..], least, top); }
  }

  lemma SecondLevelsStay(lines: seq<string>, top: nat, m: Markup)
    requires Coherent(m) && Top(lines, m) > 0 && (top == 0 || top > 6)
    ensures StayPut(Levels(lines, false, m), top - Top(lines, m), top - Clamp(top)) <==>
            top >= 1 || NoneDeeper(Levels(lines, false, m), Top(lines, m) + 1)
  {
    TopIsALevel(lines, m);
    LevelsStay(Levels(lines, false, m), Top(lines, m), top);
  }

  lemma SecondPass(lines: seq<string>, top: nat, m: Markup)
    requires Coherent(m) && Top(lines, m) > 0 && (top == 0 || top > 6)
    ensures Passed(Passed(lines, top, m), top, m) == Passed(lines, top, m) <==>
            StayPut(Levels(lines, false, m), top - Top(lines, m), top - Clamp(top))
  {
    PassedTwice(lines, top, m);
    LinesShiftedTwice(lines, false, top - Top(lines, m), top - Clamp(top), m);
  }

  lemma PassedTwice(lines: seq<string>, top: nat, m: Markup)
    requires Coherent(m) && Top(lines, m) > 0 && (top == 0 || top > 6)
    ensures var r := ShiftedLines(lines, false, top - Top(lines, m), m);
            Passed(lines, top, m) == r && Passed(r, top, m) == ShiftedLines(r, false, top - Clamp(top), m)
  {
    TopIsALevel(lines, m);
    PassedLevels(lines, top, m);
  }

  /** A second pass at the same level changes nothing, unless the level is 0 and some heading
      lies two or more below the shallowest: then every further pass moves that one up. */
  lemma PassingIsIdempotent(lines: seq<string>, top: nat, m: Markup)
    requires Coherent(m)
    ensures Passed(Passed(lines, top, m), top, m) == Passed(lines, top, m) <==>
            top >= 1 || NoneDeeper(Levels(lines, false, m), Top(lines, m) + 1)
  {
    if Top(lines, m) == 0 {
      NoneIsNoneDeeper(Levels(lines, false, m));
    } else if top == 0 || top > 6 {
      SecondPass(lines, top, m);
      SecondLevelsStay(lines, top, m);
    } else if Top(lines, m) != top {
      PassedLevels(lines, top, m);
    }
  }

  lemma {:induction false} NoneIsNoneDeeper(levels: seq<nat>)
    requires Shallowest(levels) == 0
    ensures NoneDeeper(levels, 1)
    decreases |levels|
  {
    if levels != [] { NoneIsNoneDeeper(levels[1..]); }
  }

  lemma ShiftingTwiceIsPassingTwice(text: string, top: nat, m: Markup)
    requires Coherent(m)
    ensures Shifted(Shifted(text, top, m), top, m) == Shifted(text, top, m) <==>
            Passed(Passed(Split(text), top, m), top, m) == Passed(Split(text), top, m)
  {
    var once := Passed(Split(text), top, m);
    SplitOfShifted(text, top, m);
    SplitMakesLines(text);
    PassedLinesAreLines(Split(text), top, m);
    PassedLinesAreLines(once, top, m);
    JoinIsInjective(Passed(once, top, m), once);
  }

  /** So shifting a text again at the same level changes nothing but in that case. */
  lemma ShiftingIsIdempotent(text: string, top: nat, m: Markup)
    requires Coherent(m)
    ensures Shifted(Shifted(text, top, m), top, m) == Shifted(text, top, m) <==>
            top >= 1 || NoneDeeper(Levels(Split(text), false, m), Top(Split(text), m) + 1)
  {
    ShiftingTwiceIsPassingTwice(text, top, m);
    PassingIsIdempotent(Split(text), top, m);
  }
}
