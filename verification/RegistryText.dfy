// The text of a registry document: JSON strings with their escapes, indented objects, and
// what a scan for secrets makes of the whole.

module RegistryText {
  import opened Projects
  import opened Secrets

  // --- JSON strings ---

  function Digit(n: nat): char
    requires n < 16
  {
    if n < 10 then ('0' as int + n) as char else ('a' as int + n - 10) as char
  }

  // The last digits of n.
  function Hex(n: nat, digits: nat): (r: string)
    ensures |r| == digits
  {
    if digits == 0 then [] else Hex(n / 16, digits - 1) + [Digit(n % 16)]
  }

  // Characters that are written as six, with their number.
  predicate Numbered(c: char) {
    c < ' ' || c == '<' || c == '>' || c == '&' || c == '\U{2028}' || c == '\U{2029}'
  }

  function Escape(c: char): string {
    if c == '"' || c == '\\' then ['\\', c]
    else if c == '\U{8}' then "\\b"
    else if c == '\U{C}' then "\\f"
    else if c == '\n' then "\\n"
    else if c == '\r' then "\\r"
    else if c == '\t' then "\\t"
    else if Numbered(c) then "\\u" + Hex(c as int, 4)
    else [c]
  }

  function Escaped(s: string): string { if s == [] then [] else Escape(s[0]) + Escaped(s[1..]) }

  // --- The document ---

  // Layout, or a string that is written between quotes.
  datatype Piece = Layout(text: string) | Str(text: string)

  function Spell(pieces: seq<Piece>): string {
    if pieces == [] then []
    else match pieces[0]
      case Layout(text) => text + Spell(pieces[1..])
      case Str(text) => ['"'] + Escaped(text) + ['"'] + Spell(pieces[1..])
  }

  function Line(layout: string, name: string, value: string): seq<Piece> {
    [Layout(layout), Str(name), Layout(": "), Str(value)]
  }

  function IdLine(id: string): seq<Piece> { Line("\n    {\n      ", "id", id) }

  function NameLine(name: string): seq<Piece> { Line(",\n      ", "display_name", name) }

  function RemoteLine(remote: string): seq<Piece> { Line(",\n      ", "remote", remote) }

  function Entry(p: Project): seq<Piece> { IdLine(p.id) + NameLine(p.name) + RemoteLine(p.remote) + [Layout("\n    }")] }

  function Separator(last: bool): Piece { Layout(if last then "\n  " else ",") }

  function Entries(ps: seq<Project>): seq<Piece> {
    if ps == [] then [] else Entry(ps[0]) + [Separator(|ps| == 1)] + Entries(ps[1..])
  }

  const OPENING := [Layout(",\n  "), Str("projects"), Layout(": [")]

  function Head(version: string): seq<Piece> { Line("{\n  ", "schema_version", version) + OPENING }

  function Pieces(version: string, ps: seq<Project>): seq<Piece> {
    Head(version) + Entries(ps) + [Layout("]\n}\n")]
  }

  function Text(version: string, ps: seq<Project>): string { Spell(Pieces(version, ps)) }

  // --- Scanning it ---

  predicate NoControls(s: string) { forall i :: 0 <= i < |s| ==> s[i] >= ' ' }

  lemma FourDigits(n: nat)
    ensures Hex(n, 4) == [Digit(n / 16 / 16 / 16 % 16), Digit(n / 16 / 16 % 16), Digit(n / 16 % 16), Digit(n % 16)]
  {
    var a, b, c := n / 16, n / 16 / 16, n / 16 / 16 / 16;
    assert Hex(c / 16, 0) == [] && Hex(c, 1) == [] + [Digit(c % 16)];
    assert Hex(b, 2) == Hex(c, 1) + [Digit(b % 16)] && Hex(a, 3) == Hex(b, 2) + [Digit(a % 16)];
  }

  lemma NumbersAreFillers(c: char)
    requires c >= ' ' && Numbered(c)
    ensures Breaker(c) && forall d <- Hex(c as int, 4) :: !Starter(d)
  {
    var n := c as int;
    FourDigits(n);
    if n < 0x2028 {
      assert n / 16 / 16 == 0 && n / 16 in {2, 3} && n % 16 in {6, 12, 14};
    } else {
      assert n / 16 / 16 / 16 == 2 && n / 16 / 16 == 0x20 && n / 16 == 0x202 && n % 16 in {8, 9};
    }
  }

  lemma EscapesAreFillers(c: char)
    requires c >= ' ' && |Escape(c)| > 1
    ensures Breaker(c) && Escape(c)[0] == '\\' && forall d <- Escape(c)[1..] :: !Starter(d)
  {
    if c != '"' && c != '\\' {
      NumbersAreFillers(c);
      assert Escape(c)[1..] == ['u'] + Hex(c as int, 4);
    }
  }

  // One escaped character in the middle of a text separates what is around it, as the
  // character itself does.
  lemma EscapeSeparates(before: string, c: char, after: string, written: string)
    requires c >= ' ' && |Escape(c)| > 1
    ensures Trips(before + Escape(c) + written) <==> Trips(before) || Trips(written)
    ensures Trips(before + [c] + after) <==> Trips(before) || Trips(after)
  {
    EscapesAreFillers(c);
    BreakersSeparate(before, c, after);
    BreakersSeparate(before, '\\', Escape(c)[1..] + written);
    FillersDoNotMatter(Escape(c)[1..], written);
    assert before + Escape(c) + written == before + ['\\'] + (Escape(c)[1..] + written);
  }

  /** Escaping hides no secret and makes none, in a string without control characters. */
  lemma {:induction false} EscapingKeepsTheScan(before: string, s: string)
    requires NoControls(s)
    ensures Trips(before + Escaped(s)) <==> Trips(before + s)
    decreases |s|
  {
    if s != [] {
      var c, rest := s[0], s[1..];
      assert before + s == before + [c] + rest;
      assert before + Escaped(s) == before + Escape(c) + Escaped(rest);
      if |Escape(c)| == 1 {
        assert Escape(c) == [c];
        EscapingKeepsTheScan(before + [c], rest);
      } else {
        EscapeSeparates(before, c, rest, Escaped(rest));
        EscapingKeepsTheScan("", rest);
        assert "" + Escaped(rest) == Escaped(rest) && "" + rest == rest;
      }
    }
  }

  predicate Quiet(piece: Piece) {
    match piece
    case Layout(text) => forall c <- text :: !Starter(c)
    case Str(text) => NoControls(text)
  }

  predicate AllQuiet(pieces: seq<Piece>) { forall k :: 0 <= k < |pieces| ==> Quiet(pieces[k]) }

  predicate AnyTrips(pieces: seq<Piece>) { exists k :: 0 <= k < |pieces| && pieces[k].Str? && Trips(pieces[k].text) }

  lemma QuotedTrips(text: string, rest: string)
    requires NoControls(text)
    ensures Trips(['"'] + Escaped(text) + ['"'] + rest) <==> Trips(text) || Trips(rest)
  {
    var inner := Escaped(text);
    BreakersSeparate("", '"', inner + ['"'] + rest);
    assert ['"'] + inner + ['"'] + rest == "" + ['"'] + (inner + ['"'] + rest);
    ShortTextsDoNotTrip("");
    BreakersSeparate(inner, '"', rest);
    EscapingKeepsTheScan("", text);
    assert "" + inner == inner && "" + text == text;
  }

  /** The text trips the scan exactly when one of its strings does. */
  lemma {:induction false} SpellingKeepsTheScan(pieces: seq<Piece>)
    requires AllQuiet(pieces)
    ensures Trips(Spell(pieces)) <==> AnyTrips(pieces)
  {
    if pieces == [] {
      ShortTextsDoNotTrip("");
    } else {
      var piece, rest := pieces[0], pieces[1..];
      SpellingKeepsTheScan(rest);
      assert pieces == [piece] + rest;
      JoinedTrip([piece], rest);
      assert AnyTrips([piece]) <==> piece.Str? && Trips(piece.text) by { assert [piece][0] == piece; }
      if piece.Layout? { FillersDoNotMatter(piece.text, Spell(rest)); } else { QuotedTrips(piece.text, Spell(rest)); }
    }
  }

  lemma JoinedTrip(a: seq<Piece>, b: seq<Piece>)
    ensures AnyTrips(a + b) <==> AnyTrips(a) || AnyTrips(b)
    ensures AllQuiet(a) && AllQuiet(b) ==> AllQuiet(a + b)
  {
    if AnyTrips(a) {
      var k :| 0 <= k < |a| && a[k].Str? && Trips(a[k].text);
      assert (a + b)[k] == a[k];
    }
    if AnyTrips(b) {
      var k :| 0 <= k < |b| && b[k].Str? && Trips(b[k].text);
      assert (a + b)[|a| + k] == b[k];
    }
  }

  // --- The document's own scan ---

  predicate Secretive(p: Project) { Trips(p.id) || Trips(p.name) || Trips(p.remote) }

  predicate Printable(p: Project) { NoControls(p.id) && NoControls(p.name) && NoControls(p.remote) }

  lemma LineTrips(layout: string, name: string, value: string)
    requires |name| < SHORTEST && NoControls(name) && Quiet(Layout(layout))
    ensures AnyTrips(Line(layout, name, value)) <==> Trips(value)
    ensures NoControls(value) ==> AllQuiet(Line(layout, name, value))
  {
    ShortTextsDoNotTrip(name);
    assert Line(layout, name, value)[3] == Str(value);
  }

  lemma IdTrips(id: string)
    ensures (AnyTrips(IdLine(id)) <==> Trips(id)) && (NoControls(id) ==> AllQuiet(IdLine(id)))
  {
    LineTrips("\n    {\n      ", "id", id);
  }

  lemma NameTrips(name: string)
    ensures (AnyTrips(NameLine(name)) <==> Trips(name)) && (NoControls(name) ==> AllQuiet(NameLine(name)))
  {
    LineTrips(",\n      ", "display_name", name);
  }

  lemma RemoteTrips(remote: string)
    ensures (AnyTrips(RemoteLine(remote)) <==> Trips(remote)) && (NoControls(remote) ==> AllQuiet(RemoteLine(remote)))
  {
    LineTrips(",\n      ", "remote", remote);
  }

  lemma EntryTrips(p: Project)
    ensures AnyTrips(Entry(p)) <==> Secretive(p)
    ensures Printable(p) ==> AllQuiet(Entry(p))
  {
    var id, name, remote, foot := IdLine(p.id), NameLine(p.name), RemoteLine(p.remote), [Layout("\n    }")];
    IdTrips(p.id);
    NameTrips(p.name);
    RemoteTrips(p.remote);
    assert !AnyTrips(foot) && AllQuiet(foot);
    JoinedTrip(id, name);
    JoinedTrip(id + name, remote);
    JoinedTrip(id + name + remote, foot);
  }

  lemma {:induction false} EntriesTrip(ps: seq<Project>)
    requires forall i :: 0 <= i < |ps| ==> Printable(ps[i])
    ensures AnyTrips(Entries(ps)) <==> exists p <- ps :: Secretive(p)
    ensures AllQuiet(Entries(ps))
  {
    if ps != [] {
      var separator := [Separator(|ps| == 1)];
      EntryTrips(ps[0]);
      EntriesTrip(ps[1..]);
      JoinedTrip(Entry(ps[0]), separator);
      JoinedTrip(Entry(ps[0]) + separator, Entries(ps[1..]));
      assert ps == [ps[0]] + ps[1..];
    }
  }

  lemma OpeningIsQuiet()
    ensures AllQuiet(OPENING) && !AnyTrips(OPENING)
  {
    ShortTextsDoNotTrip("projects");
    assert NoControls("projects");
    assert OPENING[0] == Layout(",\n  ") && OPENING[1] == Str("projects") && OPENING[2] == Layout(": [");
    assert Quiet(OPENING[0]);
    assert Quiet(OPENING[1]);
    assert Quiet(OPENING[2]);
  }

  lemma HeadIsQuiet(version: string)
    requires |version| < SHORTEST && NoControls(version)
    ensures AllQuiet(Head(version)) && !AnyTrips(Head(version))
  {
    LineTrips("{\n  ", "schema_version", version);
    ShortTextsDoNotTrip(version);
    OpeningIsQuiet();
    JoinedTrip(Line("{\n  ", "schema_version", version), OPENING);
  }

  lemma FootIsQuiet()
    ensures AllQuiet([Layout("]\n}\n")]) && !AnyTrips([Layout("]\n}\n")])
  {
  }

  /** Whatever the version, scanning the whole document finds a secret exactly when a field
      of some project holds one: quotes, keys, layout and escapes neither make nor hide any. */
  lemma DocumentTripsExactlyWhenAFieldDoes(version: string, ps: seq<Project>)
    requires |version| < SHORTEST && NoControls(version)
    requires forall i :: 0 <= i < |ps| ==> Printable(ps[i])
    ensures Trips(Text(version, ps)) <==> exists p <- ps :: Secretive(p)
  {
    var foot := [Layout("]\n}\n")];
    EntriesTrip(ps);
    HeadIsQuiet(version);
    FootIsQuiet();
    JoinedTrip(Head(version), Entries(ps));
    JoinedTrip(Head(version) + Entries(ps), foot);
    SpellingKeepsTheScan(Pieces(version, ps));
  }

  const BEHIND := "earer 0123456789"

  const CLOAKED := ['\U{1B}'] + BEHIND

  lemma TokenTrips()
    ensures Trips(['b'] + BEHIND)
  {
    var token := ['b'] + BEHIND;
    FittingMatches(PATTERNS[8], token);
    assert token[0..|token|] == token;
  }

  lemma {:induction false} EscapedPlain(s: string)
    requires forall i :: 0 <= i < |s| ==> Word(s[i]) || s[i] == ' '
    ensures Escaped(s) == s
  {
    if s != [] { EscapedPlain(s[1..]); }
  }

  lemma ControlIsNumbered()
    ensures Escape('\U{1B}') == "\\u001" + ['b']
  {
    FourDigits(0x1b);
    assert Hex(0x1b, 4) == "001" + ['b'];
  }

  lemma EscapedBegins(c: char, rest: string)
    requires forall i :: 0 <= i < |rest| ==> Word(rest[i]) || rest[i] == ' '
    ensures Escaped([c] + rest) == Escape(c) + rest
  {
    EscapedPlain(rest);
    assert ([c] + rest)[1..] == rest;
  }

  lemma EndsCount(front: string, last: char, rest: string)
    requires Trips([last] + rest)
    ensures Trips(front + [last] + rest)
  {
    assert front + [last] + rest == front + ([last] + rest);
    PartsTrip(front, [last] + rest);
  }

  lemma CloakedDoesNotTrip()
    ensures !Trips(CLOAKED)
  {
    FillersDoNotMatter(CLOAKED, "");
    ShortTextsDoNotTrip("");
    assert CLOAKED + "" == CLOAKED;
  }

  lemma EscapeAloudTrips(rest: string)
    requires Trips(['b'] + rest) && forall i :: 0 <= i < |rest| ==> Word(rest[i]) || rest[i] == ' '
    ensures Trips(Escaped(['\U{1B}'] + rest))
  {
    ControlIsNumbered();
    EscapedBegins('\U{1B}', rest);
    EndsCount("\\u001", 'b', rest);
  }

  /** The rule against control characters is needed for that: in this label the redactor
      sees nothing, but its escape ends in the letter a bearer token begins with. */
  lemma EscapedControlsCanTrip()
    ensures !Trips(CLOAKED) && Trips(Escaped(CLOAKED))
  {
    CloakedDoesNotTrip();
    TokenTrips();
    EscapeAloudTrips(BEHIND);
  }
}
