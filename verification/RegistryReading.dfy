// Reading the strings of a registry document back: its bytes tell its projects.

module RegistryReading {
  import opened Projects
  import opened RegistryText

  lemma {:induction false} HexTells(m: nat, n: nat, digits: nat, bound: nat)
    requires m < bound && n < bound && Hex(m, digits) == Hex(n, digits)
    requires bound == Power(digits)
    ensures m == n
  {
    if digits > 0 {
      var front := Hex(m, digits)[..digits - 1];
      assert front == Hex(m / 16, digits - 1) == Hex(n / 16, digits - 1);
      assert Hex(m, digits)[digits - 1] == Digit(m % 16) == Digit(n % 16);
      HexTells(m / 16, n / 16, digits - 1, Power(digits - 1));
    }
  }

  function Power(digits: nat): nat { if digits == 0 then 1 else 16 * Power(digits - 1) }

  lemma EscapeTells(c: char, s: string, d: char, t: string)
    requires Escape(c) + s == Escape(d) + t
    ensures c == d && s == t
  {
    var w := Escape(c) + s;
    assert w[0] == Escape(c)[0] == Escape(d)[0];
    if |Escape(c)| > 1 { assert w[1] == Escape(c)[1] == Escape(d)[1]; }
    assert |Escape(c)| == |Escape(d)|;
    assert Escape(c) == w[..|Escape(c)|] == Escape(d);
    if |Escape(c)| == 6 {
      assert Escape(c)[2..] == Hex(c as int, 4) && Escape(d)[2..] == Hex(d as int, 4);
      HexTells(c as int, d as int, 4, 0x10000);
    }
    assert s == w[|Escape(c)|..] == t;
  }

  lemma {:induction false} EscapedTells(s: string, t: string)
    requires Escaped(s) == Escaped(t)
    ensures s == t
  {
    if s != [] && t != [] {
      EscapeTells(s[0], Escaped(s[1..]), t[0], Escaped(t[1..]));
      EscapedTells(s[1..], t[1..]);
      assert s == [s[0]] + s[1..] && t == [t[0]] + t[1..];
    }
  }

  // The strings of a text as they are written, each from its quote to the next one that
  // has no backslash before it.
  function Strings(text: string): seq<string> {
    if text == [] then [] else if text[0] == '"' then Inside(text[1..], []) else Strings(text[1..])
  }

  function Inside(text: string, read: string): seq<string> {
    if text == [] then [read]
    else if text[0] == '"' then [read] + Strings(text[1..])
    else if text[0] == '\\' && |text| > 1 then Inside(text[2..], read + text[..2])
    else Inside(text[1..], read + text[..1])
  }

  predicate Bare(s: string) { forall i :: 0 <= i < |s| ==> s[i] != '"' && s[i] != '\\' }

  lemma {:induction false} BareIsRead(s: string, rest: string, read: string)
    requires Bare(s)
    ensures Inside(s + rest, read) == Inside(rest, read + s)
    ensures Strings(s + rest) == Strings(rest)
    decreases |s|
  {
    if s == [] {
      assert s + rest == rest && read + s == read;
    } else {
      BareIsRead(s[1..], rest, read + s[..1]);
      assert (s + rest)[1..] == s[1..] + rest && (s + rest)[..1] == s[..1];
      assert read + s[..1] + s[1..] == read + s;
    }
  }

  lemma {:induction false} NumbersAreBare(n: nat, digits: nat)
    ensures Bare(Hex(n, digits))
  {
    if digits > 0 { NumbersAreBare(n / 16, digits - 1); }
  }

  lemma EscapeIsRead(c: char, rest: string, read: string)
    ensures Inside(Escape(c) + rest, read) == Inside(rest, read + Escape(c))
  {
    var e := Escape(c);
    if |e| == 1 {
      BareIsRead(e, rest, read);
    } else {
      assert e[0] == '\\' && (e + rest)[..2] == e[..2] && (e + rest)[2..] == e[2..] + rest;
      if |e| == 6 {
        assert e[2..] == Hex(c as int, 4);
        NumbersAreBare(c as int, 4);
      } else {
        assert e[2..] == [];
      }
      BareIsRead(e[2..], rest, read + e[..2]);
      assert read + e[..2] + e[2..] == read + e;
    }
  }

  lemma {:induction false} EscapedIsRead(s: string, rest: string, read: string)
    ensures Inside(Escaped(s) + ['"'] + rest, read) == [read + Escaped(s)] + Strings(rest)
    decreases |s|
  {
    if s == [] {
      assert Escaped(s) + ['"'] + rest == ['"'] + rest && read + Escaped(s) == read;
    } else {
      var after := Escaped(s[1..]) + ['"'] + rest;
      assert Escaped(s) + ['"'] + rest == Escape(s[0]) + after;
      EscapeIsRead(s[0], after, read);
      EscapedIsRead(s[1..], rest, read + Escape(s[0]));
      assert read + Escape(s[0]) + Escaped(s[1..]) == read + Escaped(s);
    }
  }

  lemma QuotedIsRead(text: string, rest: string)
    ensures Strings(['"'] + Escaped(text) + ['"'] + rest) == [Escaped(text)] + Strings(rest)
  {
    var whole, after := ['"'] + Escaped(text) + ['"'] + rest, Escaped(text) + ['"'] + rest;
    assert whole[0] == '"' && whole[1..] == after;
    EscapedIsRead(text, rest, []);
    assert [] + Escaped(text) == Escaped(text);
  }

  function StringsOf(pieces: seq<Piece>): seq<string> {
    if pieces == [] then []
    else (if pieces[0].Str? then [pieces[0].text] else []) + StringsOf(pieces[1..])
  }

  function AllEscaped(xs: seq<string>): (r: seq<string>)
    ensures |r| == |xs|
  {
    if xs == [] then [] else [Escaped(xs[0])] + AllEscaped(xs[1..])
  }

  lemma {:induction false} AllEscapedTells(xs: seq<string>, ys: seq<string>)
    requires AllEscaped(xs) == AllEscaped(ys)
    ensures xs == ys
  {
    if xs != [] {
      assert AllEscaped(xs)[0] == AllEscaped(ys)[0] && AllEscaped(xs)[1..] == AllEscaped(ys)[1..];
      EscapedTells(xs[0], ys[0]);
      AllEscapedTells(xs[1..], ys[1..]);
      assert xs == [xs[0]] + xs[1..] && ys == [ys[0]] + ys[1..];
    } else {
      assert |AllEscaped(ys)| == 0;
    }
  }

  predicate BareLayout(pieces: seq<Piece>) { forall k :: 0 <= k < |pieces| && pieces[k].Layout? ==> Bare(pieces[k].text) }

  lemma {:induction false} SpelledIsRead(pieces: seq<Piece>)
    requires BareLayout(pieces)
    ensures Strings(Spell(pieces)) == AllEscaped(StringsOf(pieces))
  {
    if pieces != [] {
      SpelledIsRead(pieces[1..]);
      if pieces[0].Layout? {
        BareIsRead(pieces[0].text, Spell(pieces[1..]), []);
        assert StringsOf(pieces) == StringsOf(pieces[1..]);
      } else {
        QuotedIsRead(pieces[0].text, Spell(pieces[1..]));
        assert StringsOf(pieces)[1..] == StringsOf(pieces[1..]);
      }
    }
  }

  lemma {:induction false} JoinedStrings(a: seq<Piece>, b: seq<Piece>)
    ensures StringsOf(a + b) == StringsOf(a) + StringsOf(b)
  {
    if a == [] {
      assert a + b == b;
    } else {
      JoinedStrings(a[1..], b);
      assert (a + b)[1..] == a[1..] + b;
      var first := if a[0].Str? then [a[0].text] else [];
      assert StringsOf(a + b) == first + (StringsOf(a[1..]) + StringsOf(b));
      assert StringsOf(a) == first + StringsOf(a[1..]);
    }
  }

  lemma LineStrings(layout: string, name: string, value: string)
    ensures StringsOf(Line(layout, name, value)) == [name, value]
  {
    var last := [Str(value)];
    var colon := [Layout(": ")] + last;
    var named := [Str(name)] + colon;
    assert last[1..] == [];
    assert StringsOf(last) == [value];
    StringsBehind(Layout(": "), last);
    StringsBehind(Str(name), colon);
    StringsBehind(Layout(layout), named);
    assert Line(layout, name, value) == [Layout(layout)] + named;
  }

  lemma StringsBehind(piece: Piece, pieces: seq<Piece>)
    ensures StringsOf([piece] + pieces) == if piece.Str? then [piece.text] + StringsOf(pieces) else StringsOf(pieces)
  {
    assert ([piece] + pieces)[1..] == pieces;
  }

  // What the strings of an entry tell about the project.
  predicate Spells(strings: seq<string>, p: Project) {
    |strings| == 6 && strings[1] == p.id && strings[3] == p.name && strings[5] == p.remote
  }

  lemma EntryStrings(p: Project)
    ensures Spells(StringsOf(Entry(p)), p)
  {
    var id, name := Line("\n    {\n      ", "id", p.id), Line(",\n      ", "display_name", p.name);
    var remote := Line(",\n      ", "remote", p.remote);
    LineStrings("\n    {\n      ", "id", p.id);
    LineStrings(",\n      ", "display_name", p.name);
    LineStrings(",\n      ", "remote", p.remote);
    JoinedStrings(id, name);
    JoinedStrings(id + name, remote);
    JoinedStrings(id + name + remote, [Layout("\n    }")]);
  }

  lemma LayoutStrings(piece: Piece)
    requires piece.Layout?
    ensures StringsOf([piece]) == []
  {
    assert [piece][1..] == [];
  }

  lemma FirstEntryStrings(ps: seq<Project>)
    requires ps != []
    ensures StringsOf(Entries(ps)) == StringsOf(Entry(ps[0])) + StringsOf(Entries(ps[1..]))
  {
    var first, separator, rest := Entry(ps[0]), [Separator(|ps| == 1)], Entries(ps[1..]);
    EntryStrings(ps[0]);
    LayoutStrings(Separator(|ps| == 1));
    JoinedStrings(first, separator);
    JoinedStrings(first + separator, rest);
  }

  lemma {:induction false} EntriesTell(ps: seq<Project>, qs: seq<Project>)
    requires StringsOf(Entries(ps)) == StringsOf(Entries(qs))
    ensures ps == qs
  {
    if ps != [] { FirstEntryStrings(ps); EntryStrings(ps[0]); }
    if qs != [] { FirstEntryStrings(qs); EntryStrings(qs[0]); }
    if ps != [] && qs != [] {
      var strings := StringsOf(Entries(ps));
      assert strings[..6] == StringsOf(Entry(ps[0])) == StringsOf(Entry(qs[0]));
      assert strings[6..] == StringsOf(Entries(ps[1..])) == StringsOf(Entries(qs[1..]));
      EntriesTell(ps[1..], qs[1..]);
      assert ps == [ps[0]] + ps[1..] && qs == [qs[0]] + qs[1..];
    }
  }

  lemma EntryIsBare(p: Project)
    ensures BareLayout(Entry(p))
  {
  }

  lemma {:induction false} EntriesAreBare(ps: seq<Project>)
    ensures BareLayout(Entries(ps))
  {
    if ps != [] {
      EntryIsBare(ps[0]);
      EntriesAreBare(ps[1..]);
    }
  }

  lemma HeadStrings(version: string)
    ensures StringsOf(Head(version)) == ["schema_version", version, "projects"]
  {
    var last := [Layout(": [")];
    var named := [Str("projects")] + last;
    LineStrings("{\n  ", "schema_version", version);
    LayoutStrings(last[0]);
    assert named[1..] == last && OPENING[1..] == named;
    JoinedStrings(Line("{\n  ", "schema_version", version), OPENING);
  }

  lemma DocumentStrings(version: string, ps: seq<Project>)
    ensures StringsOf(Pieces(version, ps)) == StringsOf(Head(version)) + StringsOf(Entries(ps))
  {
    var foot := [Layout("]\n}\n")];
    LayoutStrings(foot[0]);
    JoinedStrings(Head(version), Entries(ps));
    JoinedStrings(Head(version) + Entries(ps), foot);
  }

  lemma TextIsRead(version: string, ps: seq<Project>)
    ensures Strings(Text(version, ps)) == AllEscaped(StringsOf(Head(version)) + StringsOf(Entries(ps)))
  {
    assert BareLayout(Head(version));
    EntriesAreBare(ps);
    SpelledIsRead(Pieces(version, ps));
    DocumentStrings(version, ps);
  }

  lemma StringsTell(a: seq<string>, b: seq<string>, c: seq<string>, d: seq<string>, version: string, other: string)
    requires AllEscaped(a + b) == AllEscaped(c + d)
    requires a == StringsOf(Head(version)) && c == StringsOf(Head(other))
    ensures version == other && b == d
  {
    AllEscapedTells(a + b, c + d);
    HeadStrings(version);
    HeadStrings(other);
    assert a == (a + b)[..3] == c && b == (a + b)[3..] == d;
    assert a[1] == version && c[1] == other;
  }

  /** The bytes of a document determine its version and its projects, whatever characters
      their fields hold. */
  lemma TextTellsTheProjects(version: string, ps: seq<Project>, other: string, qs: seq<Project>)
    ensures Text(version, ps) == Text(other, qs) <==> version == other && ps == qs
  {
    if Text(version, ps) == Text(other, qs) {
      TextIsRead(version, ps);
      TextIsRead(other, qs);
      StringsTell(StringsOf(Head(version)), StringsOf(Entries(ps)),
                  StringsOf(Head(other)), StringsOf(Entries(qs)), version, other);
      EntriesTell(ps, qs);
    }
  }
}
