// The allowlist document Codex checks a declared server against.

module CodexRequirements {

  // The fixed parts of the document: what comes before the services, what stands for none,
  // and what is around the two places a service's name has.
  datatype Template = Template(header: string, none: string, before: string, between: string, after: string)

  const CODEX := Template(
    "# Written by torio mcp install. This file is the allowlist Codex checks\n" +
    "# a declared MCP server against, and it names the credential-free relay and\n" +
    "# the single service argument each entry may carry. An empty table permits\n" +
    "# no server at all.\n\n",
    "[mcp_servers]\n",
    "[mcp_servers.\"",
    "\"]\n" +
    "identity = { command = { executable = \"/usr/local/bin/torio-mcp-connect\", args = [{ match = \"exact\", value = \"",
    "\" }] } }\n\n")

  // A name is closed by its quote, an entry by two newlines and nothing else, and an entry
  // cannot be taken for the empty table.
  predicate Unambiguous(t: Template) {
    && t.between != "" && t.between[0] == '"'
    && |t.after| >= 3 && t.after[|t.after| - 1] == '\n' && t.after[|t.after| - 2] == '\n' && t.after[|t.after| - 3] != '\n'
    && |t.before| > 12 && |t.none| > 12 && t.before[12] != t.none[12]
  }

  lemma CodexIsUnambiguous()
    ensures Unambiguous(CODEX)
  {
    var t := CODEX;
    assert |t.before| == 14 && t.before[12] == '.';
    assert |t.none| == 14 && t.none[12] == ']';
    assert t.between[0] == '"';
    assert |t.after| == 10 && t.after[7] == '}' && t.after[8] == '\n' && t.after[9] == '\n';
  }

  // A service name has no quote, backslash or line break, so Go's %q only puts it in quotes.
  predicate PlainName(name: string) { forall i :: 0 <= i < |name| ==> name[i] != '"' && name[i] != '\\' && name[i] != '\n' }

  predicate PlainNames(services: seq<string>) { forall i :: 0 <= i < |services| ==> PlainName(services[i]) }

  function Block(name: string, t: Template): string { t.before + name + t.between + name + t.after }

  function Blocks(services: seq<string>, t: Template): string {
    if services == [] then "" else Block(services[0], t) + Blocks(services[1..], t)
  }

  // strings.TrimRight(s, "\n")
  function TrimNewlines(s: string): string {
    if s != "" && s[|s| - 1] == '\n' then TrimNewlines(s[..|s| - 1]) else s
  }

  function Rendered(services: seq<string>, t: Template): string {
    if services == [] then t.header + t.none else TrimNewlines(t.header + Blocks(services, t)) + "\n"
  }

  method RenderCodexRequirements(services: seq<string>, t: Template) returns (doc: string)
    ensures doc == Rendered(services, t)
  {
    var b := t.header;
    if |services| == 0 { return b + t.none; }
    for i := 0 to |services|
      invariant b + Blocks(services[i..], t) == t.header + Blocks(services, t)
    {
      assert services[i..][1..] == services[i + 1..];
      var block := Block(services[i], t);
      assert b + (block + Blocks(services[i + 1..], t)) == (b + block) + Blocks(services[i + 1..], t);
      b := b + block;
    }
    assert b + "" == b;
    doc := TrimNewlines(b) + "\n";
  }

  predicate EndsLikeAnEntry(s: string) {
    |s| >= 3 && s[|s| - 1] == '\n' && s[|s| - 2] == '\n' && s[|s| - 3] != '\n'
  }

  lemma {:induction false} BlocksEnd(services: seq<string>, t: Template)
    requires services != [] && Unambiguous(t)
    ensures EndsLikeAnEntry(Blocks(services, t))
    decreases |services|
  {
    if |services| > 1 { BlocksEnd(services[1..], t); }
  }

  lemma TrimOfEnd(s: string)
    requires EndsLikeAnEntry(s)
    ensures TrimNewlines(s) == s[..|s| - 2]
  {
    var once := s[..|s| - 1];
    var twice := once[..|once| - 1];
    assert twice == s[..|s| - 2] && twice[|twice| - 1] == s[|s| - 3];
    assert TrimNewlines(twice) == twice;
    assert TrimNewlines(once) == TrimNewlines(twice);
  }

  // A name ends at the first quote after it.
  lemma {:induction false} NameEndsAtItsQuote(a: string, b: string, x: string, y: string)
    requires PlainName(a) && PlainName(b) && x != "" && y != "" && x[0] == '"' && y[0] == '"' && a + x == b + y
    ensures a == b && x == y
    decreases |a|
  {
    var text := a + x;
    if |a| > 0 { assert text[0] == a[0]; }
    if |b| > 0 { assert text[0] == b[0]; }
    if a == "" || b == "" {
      assert text[0] == '"';
      assert a == b && x == text && y == text;
    } else {
      assert text[0] == a[0] == b[0];
      assert text[1..] == a[1..] + x && text[1..] == b[1..] + y;
      NameEndsAtItsQuote(a[1..], b[1..], x, y);
      assert a == [a[0]] + a[1..] && b == [b[0]] + b[1..];
    }
  }

  lemma BlockParts(name: string, rest: string, t: Template)
    ensures Block(name, t) + rest == t.before + (name + (t.between + name + t.after + rest))
  {
  }

  lemma SamePrefix(p: string, x: string, y: string)
    requires p + x == p + y
    ensures x == y
  {
    assert x == (p + x)[|p|..] && y == (p + y)[|p|..];
  }

  lemma FirstBlockTellsItsService(a: string, b: string, x: string, y: string, t: Template)
    requires Unambiguous(t) && PlainName(a) && PlainName(b) && Block(a, t) + x == Block(b, t) + y
    ensures a == b && x == y
  {
    BlockParts(a, x, t);
    BlockParts(b, y, t);
    var u, v := t.between + a + t.after + x, t.between + b + t.after + y;
    SamePrefix(t.before, a + u, b + v);
    NameEndsAtItsQuote(a, b, u, v);
    SamePrefix(Block(a, t), x, y);
  }

  lemma {:induction false} BlocksTellTheServices(a: seq<string>, b: seq<string>, t: Template)
    requires Unambiguous(t) && PlainNames(a) && PlainNames(b) && Blocks(a, t) == Blocks(b, t)
    ensures a == b
    decreases |a|
  {
    if a == [] || b == [] {
      assert a == b;
    } else {
      FirstBlockTellsItsService(a[0], b[0], Blocks(a[1..], t), Blocks(b[1..], t), t);
      BlocksTellTheServices(a[1..], b[1..], t);
      assert a == [a[0]] + a[1..] && b == [b[0]] + b[1..];
    }
  }

  lemma RenderedBlocks(services: seq<string>, t: Template)
    requires services != [] && Unambiguous(t)
    ensures Rendered(services, t) + "\n" == t.header + Blocks(services, t)
    ensures |Rendered(services, t)| > |t.header| + 12 && Rendered(services, t)[|t.header| + 12] == t.before[12]
  {
    var all, blocks := t.header + Blocks(services, t), Blocks(services, t);
    BlocksEnd(services, t);
    assert EndsLikeAnEntry(all);
    TrimOfEnd(all);
    assert all == all[..|all| - 2] + "\n" + "\n";
    assert blocks[12] == t.before[12] && |blocks| > |t.before| + 2;
    assert all[|t.header| + 12] == blocks[12];
  }

  /** Byte equality of two allowlists is equality of the services they grant, so a file that
      compares equal permits exactly the policy, and the one for no service permits nothing. */
  lemma AllowlistTellsTheServices(a: seq<string>, b: seq<string>, t: Template)
    requires Unambiguous(t) && PlainNames(a) && PlainNames(b)
    ensures Rendered(a, t) == Rendered(b, t) <==> a == b
  {
    if Rendered(a, t) == Rendered(b, t) {
      if a != [] { RenderedBlocks(a, t); }
      if b != [] { RenderedBlocks(b, t); }
      assert (t.header + t.none)[|t.header| + 12] == t.none[12];
      assert a == [] <==> b == [];
      if a != [] {
        SamePrefix(t.header, Blocks(a, t), Blocks(b, t));
        BlocksTellTheServices(a, b, t);
      }
    }
  }
}
