// The Markdown the generator reads: headings, fences and anchors.

module DocsText {
  import opened DocsLines
  import opened DocsShift

  // --- Stripping ---

  // str.isspace
  predicate IsSpace(c: char) {
    var n := c as int;
    9 <= n <= 13 || 28 <= n <= 32 || n == 0x85 || n == 0xA0 || n == 0x1680 || 0x2000 <= n <= 0x200A
    || n == 0x2028 || n == 0x2029 || n == 0x202F || n == 0x205F || n == 0x3000
  }

  function StripLeft(s: string): string { if s != "" && IsSpace(s[0]) then StripLeft(s[1..]) else s }

  function StripRight(s: string): string { if s != "" && IsSpace(s[|s| - 1]) then StripRight(s[..|s| - 1]) else s }

  function Strip(s: string): string { StripRight(StripLeft(s)) }

  predicate Trimmed(s: string) { s == "" || (!IsSpace(s[0]) && !IsSpace(s[|s| - 1])) }

  lemma {:induction false} StripLeftTrims(s: string)
    ensures StripLeft(s) == "" || !IsSpace(StripLeft(s)[0])
    ensures forall c <- StripLeft(s) :: c in s
    decreases |s|
  {
    if s != "" && IsSpace(s[0]) { StripLeftTrims(s[1..]); }
  }

  lemma {:induction false} StripRightTrims(s: string)
    ensures StripRight(s) <= s
    ensures StripRight(s) == "" || !IsSpace(StripRight(s)[|StripRight(s)| - 1])
    decreases |s|
  {
    if s != "" && IsSpace(s[|s| - 1]) { StripRightTrims(s[..|s| - 1]); }
  }

  lemma StripTrims(s: string)
    ensures Trimmed(Strip(s)) && forall c <- Strip(s) :: c in s
  {
    StripLeftTrims(s);
    StripRightTrims(StripLeft(s));
  }

  lemma TrimmedStays(s: string)
    requires Trimmed(s)
    ensures Strip(s) == s
  {
  }

  // --- Headings and fences ---

  predicate IsBlank(c: char) { c == ' ' || c == '\t' }

  function Hashes(s: string): (n: nat)
    ensures n <= |s|
  {
    if s != "" && s[0] == '#' then 1 + Hashes(s[1..]) else 0
  }

  function Repeat(n: nat): string { if n == 0 then "" else "#" + Repeat(n - 1) }

  lemma {:induction false} HashesOfRepeat(n: nat, rest: string)
    requires rest == "" || rest[0] != '#'
    ensures Hashes(Repeat(n) + rest) == n && (Repeat(n) + rest)[n..] == rest
    ensures |Repeat(n)| == n && forall c <- Repeat(n) :: c == '#'
    decreases n
  {
    if n == 0 {
      assert Repeat(n) + rest == rest;
    } else {
      HashesOfRepeat(n - 1, rest);
      assert (Repeat(n) + rest)[1..] == Repeat(n - 1) + rest;
    }
  }

  predicate IsInfo(c: char) {
    'a' <= c <= 'z' || 'A' <= c <= 'Z' || '0' <= c <= '9' || c == '_' || c == '+' || c == '-'
  }

  predicate AllInfo(s: string) { s == "" || (IsInfo(s[0]) && AllInfo(s[1..])) }

  function DropBlanks(s: string): string { if s != "" && IsBlank(s[0]) then DropBlanks(s[1..]) else s }

  // A fence, a heading of one to six hashes and a blank, or anything else.
  function KindOfStripped(s: string): Kind {
    if |s| >= 3 && s[0] == '`' && s[1] == '`' && s[2] == '`' && AllInfo(DropBlanks(s[3..])) then Fence
    else if 1 <= Hashes(s) <= 6 && Hashes(s) < |s| && IsBlank(s[Hashes(s)]) then Heading(Hashes(s))
    else Prose
  }

  function KindOf(line: string): Kind { KindOfStripped(Strip(line)) }

  // The heading with another number of hashes.
  function Relevel(line: string, level: nat): string {
    Repeat(level) + Strip(line)[Hashes(Strip(line))..]
  }

  function BodyOf(line: string): string { Strip(line)[Hashes(Strip(line))..] }

  lemma ReleveledLine(line: string, level: nat)
    requires KindOf(line).Heading? && 1 <= level <= 6
    ensures var r := Relevel(line, level);
            && KindOf(r) == Heading(level) && BodyOf(r) == BodyOf(line) && ('\n' !in line ==> '\n' !in r)
            && forall other: nat :: Relevel(r, other) == Relevel(line, other)
  {
    var s := Strip(line);
    var n := Hashes(s);
    var rest := s[n..];
    StripTrims(line);
    assert rest[0] == s[n] && rest[|rest| - 1] == s[|s| - 1];
    HashesOfRepeat(level, rest);
    var r := Relevel(line, level);
    assert r == Repeat(level) + rest;
    assert r[0] == '#' && r[|r| - 1] == rest[|rest| - 1] && r[level] == rest[0];
    TrimmedStays(r);
    if '\n' !in line {
      assert '\n' !in rest by { assert forall c <- rest :: c in s; }
      assert '\n' !in Repeat(level);
    }
  }

  const MARKDOWN := Markup(KindOf, BodyOf, Relevel)

  /** The generator's own reading and writing of headings hangs together: what it writes as a
      heading of some level it reads as one, with the text it had. */
  lemma MarkdownIsCoherent()
    ensures Coherent(MARKDOWN)
  {
    var m := MARKDOWN;
    forall line, level: nat | m.kind(line).Heading? && 1 <= level <= 6
      ensures var r := m.relevel(line, level);
              m.kind(r) == Heading(level) && m.body(r) == m.body(line) && ('\n' !in line ==> '\n' !in r)
    {
      ReleveledLine(line, level);
    }
    forall line, a: nat, b: nat | m.kind(line).Heading? && 1 <= a <= 6
      ensures m.relevel(m.relevel(line, a), b) == m.relevel(line, b)
    {
      ReleveledLine(line, a);
    }
  }

  /** So in the generator's own Markdown a shifted block has its shallowest heading at the
      level asked for, if there is such a level, and shifting again changes nothing unless
      the level is 0. */
  lemma MarkdownShifts(text: string, top: nat)
    ensures Top(Split(text), MARKDOWN) > 0 ==> (Top(Split(Shifted(text, top, MARKDOWN)), MARKDOWN) == top <==> 1 <= top <= 6)
    ensures top >= 1 ==> Shifted(Shifted(text, top, MARKDOWN), top, MARKDOWN) == Shifted(text, top, MARKDOWN)
  {
    MarkdownIsCoherent();
    if Top(Split(text), MARKDOWN) > 0 { ShiftingSetsTheTop(text, top, MARKDOWN); }
    ShiftingIsIdempotent(text, top, MARKDOWN);
  }

  lemma HashLine(level: nat, rest: string)
    requires 1 <= level <= 6 && rest != "" && IsBlank(rest[0]) && !IsSpace(rest[|rest| - 1])
    ensures var line := Repeat(level) + rest;
            KindOf(line) == Heading(level) && BodyOf(line) == rest && forall n: nat :: Relevel(line, n) == Repeat(n) + rest
  {
    HashesOfRepeat(level, rest);
    var line := Repeat(level) + rest;
    assert line[0] == '#' && line[|line| - 1] == rest[|rest| - 1] && line[level] == rest[0];
    TrimmedStays(line);
  }

  // A title and a heading two levels below it.
  const DEEP_TEXT := "# a\n### b"

  lemma Repeats()
    ensures Repeat(1) == "#" && Repeat(3) == "###"
  {
    assert Repeat(0) == "" && Repeat(1) == "#" + Repeat(0) && Repeat(2) == "#" + Repeat(1) && Repeat(3) == "#" + Repeat(2);
  }

  lemma DeepLines()
    ensures Split(DEEP_TEXT) == [Repeat(1) + " a", Repeat(3) + " b"]
  {
    Repeats();
    assert DEEP_TEXT == "# a" + "\n" + "### b";
    assert "#" + " a" == "# a" && "###" + " b" == "### b";
    SplittingALine("# a");
    SplittingALine("### b");
    SplittingTwo("# a", "### b");
  }

  /** With level 0 it is not so: shifted once, this text changes again the second time. */
  lemma LevelZeroKeepsMoving()
    ensures var once := Shifted(DEEP_TEXT, 0, MARKDOWN);
            once != Shifted(once, 0, MARKDOWN)
  {
    MarkdownIsCoherent();
    DeepLines();
    DeepLevels(Repeat(1) + " a", Repeat(3) + " b");
    ShiftingIsIdempotent(DEEP_TEXT, 0, MARKDOWN);
  }

  lemma DeepLevels(title: string, deep: string)
    requires title == Repeat(1) + " a" && deep == Repeat(3) + " b"
    ensures Levels([title, deep], false, MARKDOWN) == [1, 3]
    ensures Top([title, deep], MARKDOWN) == 1 && !NoneDeeper([1, 3], 2)
  {
    HashLine(1, " a");
    HashLine(3, " b");
    assert [title, deep][1..] == [deep] && [deep][1..] == [];
    assert [1, 3][1..] == [3] && [3][1..] == [];
    assert Shallowest([3]) == 3 && !NoneDeeper([3], 2);
  }
}
