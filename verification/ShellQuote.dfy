// Quoting a path for the shell, and the reader that takes the quoting away again.

module ShellQuote {
  import opened Options

  // --- The shell's side: section 2.2 of the POSIX.1-2017 Shell Command Language ---

  // Characters that, unquoted, end a word's literal reading in an argument.
  const SPECIAL := {'|', '&', ';', '<', '>', '(', ')', '$', '`', '"', '*', '?', '[', '#', '~', '\n'}

  datatype Mode = Between | InWord(word: string) | InQuotes(word: string)

  // The argument words of a line that holds nothing but literal words: None when anything
  // in it would be expanded, redirected, or left open.
  function Words(line: string): Option<seq<string>> { Read(line, Between) }

  function Prepend(word: string, rest: Option<seq<string>>): Option<seq<string>> {
    match rest
    case None => None
    case Some(words) => Some([word] + words)
  }

  function WordOf(mode: Mode): string { if mode.Between? then "" else mode.word }

  function Read(text: string, mode: Mode): Option<seq<string>> {
    if text == "" then
      match mode
      case Between => Some([])
      case InWord(word) => Some([word])
      case InQuotes(_) => None
    else
      var c, rest := text[0], text[1..];
      if mode.InQuotes? then
        Read(rest, if c == '\'' then InWord(mode.word) else InQuotes(mode.word + [c]))
      else if c == '\'' then Read(rest, InQuotes(WordOf(mode)))
      else if c == '\\' then
        if rest == "" then None
        else if rest[0] == '\n' then Read(rest[1..], mode)
        else Read(rest[1..], InWord(WordOf(mode) + [rest[0]]))
      else if c == ' ' || c == '\t' then
        if mode.InWord? then Prepend(mode.word, Read(rest, Between)) else Read(rest, Between)
      else if c in SPECIAL then None
      else Read(rest, InWord(WordOf(mode) + [c]))
  }

  // --- The quoting ---

  predicate Safe(c: char) {
    'a' <= c <= 'z' || 'A' <= c <= 'Z' || '0' <= c <= '9' || c in "_@%+=:,./-"
  }

  // Every single quote closes the quotes, gives itself escaped, and opens them again.
  function Escaped(s: string): string {
    if s == "" then "" else (if s[0] == '\'' then "'\\''" else [s[0]]) + Escaped(s[1..])
  }

  function Quote(s: string): (r: string)
    ensures r != ""
  {
    if s != "" && forall i :: 0 <= i < |s| ==> Safe(s[i]) then s else "'" + Escaped(s) + "'"
  }

  lemma SafeIsLiteral(c: char)
    requires Safe(c)
    ensures c !in SPECIAL && c != '\'' && c != '\\' && c != ' ' && c != '\t'
  {
    if c in "_@%+=:,./-" {
      var i :| 0 <= i < 10 && c == "_@%+=:,./-"[i];
    }
  }

  lemma {:induction false} SafeCharactersRead(s: string, rest: string, word: string)
    requires forall i :: 0 <= i < |s| ==> Safe(s[i])
    ensures Read(s + rest, InWord(word)) == Read(rest, InWord(word + s))
    decreases |s|
  {
    if s == "" {
      assert s + rest == rest && word + s == word;
    } else {
      SafeIsLiteral(s[0]);
      assert (s + rest)[0] == s[0] && (s + rest)[1..] == s[1..] + rest;
      SafeCharactersRead(s[1..], rest, word + [s[0]]);
      assert word + [s[0]] + s[1..] == word + s;
    }
  }

  lemma {:induction false} EscapedReads(s: string, rest: string, word: string)
    ensures Read(Escaped(s) + "'" + rest, InQuotes(word)) == Read(rest, InWord(word + s))
    decreases |s|
  {
    var text := Escaped(s) + "'" + rest;
    if s == "" {
      assert text[0] == '\'' && text[1..] == rest;
      assert word + s == word;
    } else {
      var more := Escaped(s[1..]) + "'" + rest;
      EscapedReads(s[1..], rest, word + [s[0]]);
      assert word + [s[0]] + s[1..] == word + s;
      if s[0] == '\'' {
        assert text == "'\\''" + more;
        EscapedQuoteReads(more, word);
      } else {
        assert text == [s[0]] + more;
        assert text[1..] == more;
      }
    }
  }

  // Closing the quotes, an escaped quote, and opening them again reads as one quote.
  lemma EscapedQuoteReads(more: string, word: string)
    ensures Read("'\\''" + more, InQuotes(word)) == Read(more, InQuotes(word + ['\'']))
  {
    var three, two, one := "\\''" + more, "''" + more, "'" + more;
    assert ("'\\''" + more)[1..] == three && three[1..] == two && two[1..] == one && one[1..] == more;
    assert Read(three, InWord(word)) == Read(two[1..], InWord(word + [two[0]]));
    assert Read(one, InWord(word + ['\''])) == Read(more, InQuotes(word + ['\'']));
  }

  lemma WordBegins(c: char, more: string)
    requires Safe(c)
    ensures Read([c] + more, Between) == Read(more, InWord([c]))
  {
    var text := [c] + more;
    SafeIsLiteral(c);
    assert text[0] == c && text[1..] == more && "" + [c] == [c];
  }

  lemma WordReads(text: string, c: char, tail: string, rest: string, word: string)
    requires text == [c] + (tail + rest) && word == [c] + tail
    requires Safe(c) && forall i :: 0 <= i < |tail| ==> Safe(tail[i])
    ensures Read(text, Between) == Read(rest, InWord(word))
  {
    WordBegins(c, tail + rest);
    SafeCharactersRead(tail, rest, [c]);
  }

  lemma FirstOfTwo(s: string, rest: string)
    requires s != ""
    ensures s + rest == [s[0]] + (s[1..] + rest) && s == [s[0]] + s[1..]
  {
  }

  lemma UnquotedReads(s: string, rest: string)
    requires s != "" && forall i :: 0 <= i < |s| ==> Safe(s[i])
    ensures Read(s + rest, Between) == Read(rest, InWord(s))
  {
    FirstOfTwo(s, rest);
    WordReads(s + rest, s[0], s[1..], rest, s);
  }

  lemma InQuotesReads(s: string, rest: string)
    ensures Read("'" + Escaped(s) + "'" + rest, Between) == Read(rest, InWord(s))
  {
    var text := "'" + Escaped(s) + "'" + rest;
    assert text[0] == '\'' && text[1..] == Escaped(s) + "'" + rest;
    EscapedReads(s, rest, "");
    assert "" + s == s;
  }

  /** Whatever follows, a quoted string reads as itself. */
  lemma QuotedReads(s: string, rest: string)
    ensures Read(Quote(s) + rest, Between) == Read(rest, InWord(s))
  {
    if s != "" && forall i :: 0 <= i < |s| ==> Safe(s[i]) {
      UnquotedReads(s, rest);
    } else {
      InQuotesReads(s, rest);
    }
  }

  /** Every string, quoted, is one word of the shell's, and that word is the string: nothing
      in it is expanded, split, or joined to anything. */
  lemma QuotedIsOneWord(s: string)
    ensures Words(Quote(s)) == Some([s])
  {
    QuotedReads(s, "");
    assert Quote(s) + "" == Quote(s);
  }

  function CommandLine(args: seq<string>): string {
    if args == [] then ""
    else if |args| == 1 then Quote(args[0])
    else Quote(args[0]) + " " + CommandLine(args[1..])
  }

  /** A command line of quoted arguments reads back as exactly the arguments. */
  lemma {:induction false} QuotedArgumentsReadBack(args: seq<string>)
    ensures Words(CommandLine(args)) == Some(args)
    decreases |args|
  {
    if |args| == 1 {
      QuotedIsOneWord(args[0]);
      assert args == [args[0]];
    } else if |args| > 1 {
      var rest := " " + CommandLine(args[1..]);
      assert CommandLine(args) == Quote(args[0]) + rest;
      QuotedReads(args[0], rest);
      QuotedArgumentsReadBack(args[1..]);
      assert rest[1..] == CommandLine(args[1..]);
      assert [args[0]] + args[1..] == args;
    }
  }

  /** Different strings never quote alike. */
  lemma QuotingIsInjective(s: string, t: string)
    requires Quote(s) == Quote(t)
    ensures s == t
  {
    QuotedIsOneWord(s);
    QuotedIsOneWord(t);
    assert Some([s]) == Some([t]);
  }
}
