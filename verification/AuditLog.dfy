// The broker's audit stream: one JSON line a decision, appended to what the file held and
// synced before it counts, and nothing more once a write or a sync went wrong.

module AuditLog {

  datatype AuditRecord = AuditRecord(time: int, uid: nat, service: string, tool: string, writes: bool, allowed: bool)

  // json.Marshal of a record: its text has no newline, and tells the record.
  ghost predicate LineEncoding(encode: AuditRecord -> string) {
    && (forall r :: '\n' !in encode(r))
    && (forall q, r :: encode(q) == encode(r) ==> q == r)
  }

  function Line(record: AuditRecord, encode: AuditRecord -> string): string { encode(record) + "\n" }

  function Text(records: seq<AuditRecord>, encode: AuditRecord -> string): string {
    if records == [] then "" else Text(records[..|records| - 1], encode) + Line(records[|records| - 1], encode)
  }

  // What becomes of one record: it cannot be encoded, or so much of its line arrives and
  // the write or the sync reports an error.
  datatype Outcome = Unencodable | Wrote(accepted: nat, writeFails: bool, syncFails: bool)

  predicate Succeeds(line: string, o: Outcome) { o.Wrote? && o.accepted >= |line| && !o.writeFails && !o.syncFails }

  function Arrived(line: string, o: Outcome): string {
    if o.Unencodable? then "" else if o.accepted < |line| then line[..o.accepted] else line
  }

  datatype Log = Log(text: string, failed: bool)

  function Append(log: Log, record: AuditRecord, encode: AuditRecord -> string, o: Outcome): Log {
    var line := Line(record, encode);
    if log.failed then log else Log(log.text + Arrived(line, o), !Succeeds(line, o))
  }

  // What the file held, the acknowledged records' lines, and after a failure perhaps some
  // of one more line.
  ghost predicate Sound(log: Log, prior: string, acknowledged: seq<AuditRecord>, encode: AuditRecord -> string) {
    if !log.failed then log.text == prior + Text(acknowledged, encode)
    else exists torn: AuditRecord, n: nat ::
           n <= |Line(torn, encode)| && log.text == prior + Text(acknowledged, encode) + Line(torn, encode)[..n]
  }

  lemma AppendKeepsSound(log: Log, prior: string, acknowledged: seq<AuditRecord>, record: AuditRecord,
                         encode: AuditRecord -> string, o: Outcome)
    requires Sound(log, prior, acknowledged, encode)
    ensures var ok := !log.failed && Succeeds(Line(record, encode), o);
            Sound(Append(log, record, encode, o), prior, if ok then acknowledged + [record] else acknowledged, encode)
  {
    var line := Line(record, encode);
    if !log.failed {
      assert (acknowledged + [record])[..|acknowledged|] == acknowledged;
      var n := |Arrived(line, o)|;
      assert Arrived(line, o) == line[..n];
      assert prior + Text(acknowledged, encode) + line == prior + (Text(acknowledged, encode) + line);
    }
  }

  class JsonRecorder {
    const hasSink: bool
    const encode: AuditRecord -> string
    // What the file held when it was opened for appending.
    const prior: string
    var log: Log
    ghost var acknowledged: seq<AuditRecord>

    ghost predicate Valid()
      reads this
    {
      Sound(log, prior, acknowledged, encode)
    }

    constructor (hasSink: bool, encode: AuditRecord -> string, prior: string)
      ensures Valid() && this.hasSink == hasSink && this.encode == encode && this.prior == prior
      ensures log == Log(prior, false) && acknowledged == []
    {
      this.hasSink, this.encode, this.prior, this.log, this.acknowledged := hasSink, encode, prior, Log(prior, false), [];
    }

    // What arrives of a line, and whether the write and the sync report no error.
    method Write(line: string, o: Outcome) returns (ok: bool)
      requires o.Wrote?
      modifies this`log
      ensures log == Log(old(log).text + Arrived(line, o), old(log).failed) && ok == Succeeds(line, o)
    {
      var arrived := if o.accepted < |line| then line[..o.accepted] else line;
      log := log.(text := log.text + arrived);
      ok := !o.writeFails && |arrived| == |line| && !o.syncFails;
    }

    method Record(record: AuditRecord, o: Outcome) returns (ok: bool)
      requires Valid()
      modifies this
      ensures Valid()
      ensures ok == (hasSink && !old(log).failed && Succeeds(Line(record, encode), o))
      ensures acknowledged == if ok then old(acknowledged) + [record] else old(acknowledged)
      ensures log == if hasSink then Append(old(log), record, encode, o) else old(log)
    {
      if !hasSink || log.failed { return false; }
      ghost var appended := Append(log, record, encode, o);
      AppendKeepsSound(log, prior, acknowledged, record, encode, o);
      if o.Unencodable? {
        log := log.(failed := true);
        assert log.text + "" == log.text && log == appended;
        return false;
      }
      var written := Write(encode(record) + "\n", o);
      if !written {
        log := log.(failed := true);
        assert log == appended;
        return false;
      }
      acknowledged := acknowledged + [record];
      assert log == appended;
      return true;
    }
  }

  // --- Reading the stream ---

  // The lines of a text that are complete, and what comes after the last of them.
  function CompleteLines(text: string): seq<string> { Lines(text, "") }

  function Fragment(text: string): string { Rest(text, "") }

  // Every line of the text is complete.
  predicate Whole(text: string) { text == "" || text[|text| - 1] == '\n' }

  function Lines(text: string, started: string): seq<string> {
    if text == "" then []
    else if text[0] == '\n' then [started] + Lines(text[1..], "")
    else Lines(text[1..], started + [text[0]])
  }

  function Rest(text: string, started: string): string {
    if text == "" then started
    else if text[0] == '\n' then Rest(text[1..], "")
    else Rest(text[1..], started + [text[0]])
  }

  lemma {:induction false} JoinedAreRead(a: string, b: string, started: string)
    ensures Lines(a + b, started) == Lines(a, started) + Lines(b, Rest(a, started))
    decreases |a|
  {
    if a == "" {
      assert a + b == b;
    } else {
      assert (a + b)[1..] == a[1..] + b;
      if a[0] == '\n' { JoinedAreRead(a[1..], b, ""); } else { JoinedAreRead(a[1..], b, started + [a[0]]); }
    }
  }

  lemma {:induction false} RestIsEmptyAfterANewline(text: string, started: string)
    requires text != ""
    ensures Rest(text, started) == "" <==> text[|text| - 1] == '\n'
    decreases |text|
  {
    var next := if text[0] == '\n' then "" else started + [text[0]];
    if |text| > 1 { RestIsEmptyAfterANewline(text[1..], next); }
  }

  lemma WholeHasNoFragment(text: string)
    ensures Whole(text) <==> Fragment(text) == ""
  {
    if text != "" { RestIsEmptyAfterANewline(text, ""); }
  }

  lemma {:induction false} LineIsRead(body: string, rest: string, started: string)
    requires '\n' !in body
    ensures Lines(body + "\n" + rest, started) == [started + body] + Lines(rest, "")
    decreases |body|
  {
    var text := body + "\n" + rest;
    if body == "" {
      assert text[1..] == rest;
      assert started + body == started;
    } else {
      assert text[1..] == body[1..] + "\n" + rest;
      LineIsRead(body[1..], rest, started + [body[0]]);
      assert started + [body[0]] + body[1..] == started + body;
    }
  }

  lemma {:induction false} PartOfALineIsNotRead(part: string, started: string)
    requires '\n' !in part
    ensures Lines(part, started) == []
    decreases |part|
  {
    if part != "" { PartOfALineIsNotRead(part[1..], started + [part[0]]); }
  }

  function Encoded(records: seq<AuditRecord>, encode: AuditRecord -> string): (r: seq<string>)
    ensures |r| == |records| && forall i :: 0 <= i < |r| ==> r[i] == encode(records[i])
  {
    if records == [] then [] else [encode(records[0])] + Encoded(records[1..], encode)
  }

  // Lines written after a text: the first one continues what the text left open.
  function Glued(open: string, lines: seq<string>): seq<string> {
    if lines == [] then [] else [open + lines[0]] + lines[1..]
  }

  lemma {:induction false} TextStartsWithItsFirst(records: seq<AuditRecord>, encode: AuditRecord -> string)
    requires records != []
    ensures Text(records, encode) == Line(records[0], encode) + Text(records[1..], encode)
    decreases |records|
  {
    var front, last := records[..|records| - 1], records[|records| - 1];
    if |records| > 1 {
      TextStartsWithItsFirst(front, encode);
      assert front[1..] == records[1..][..|records| - 2];
    } else {
      assert records[1..] == [] && front == [];
    }
  }

  lemma FirstLineAndRest(records: seq<AuditRecord>, tail: string, encode: AuditRecord -> string)
    requires records != []
    ensures Text(records, encode) + tail == encode(records[0]) + "\n" + (Text(records[1..], encode) + tail)
  {
    TextStartsWithItsFirst(records, encode);
  }

  lemma {:induction false} TextIsRead(records: seq<AuditRecord>, tail: string, open: string, encode: AuditRecord -> string)
    requires LineEncoding(encode)
    ensures Lines(Text(records, encode) + tail, open)
            == Glued(open, Encoded(records, encode)) + Lines(tail, if records == [] then open else "")
    decreases |records|
  {
    if records == [] {
      assert Text(records, encode) + tail == tail;
    } else {
      var rest, later := Text(records[1..], encode) + tail, Encoded(records[1..], encode);
      TextIsRead(records[1..], tail, "", encode);
      NothingToGlue(later);
      FirstIsRead(records, tail, open, encode);
      assert Lines(rest, "") == later + Lines(tail, "");
      assert Glued(open, Encoded(records, encode)) == [open + encode(records[0])] + later;
    }
  }

  lemma FirstIsRead(records: seq<AuditRecord>, tail: string, open: string, encode: AuditRecord -> string)
    requires LineEncoding(encode) && records != []
    ensures Lines(Text(records, encode) + tail, open)
            == [open + encode(records[0])] + Lines(Text(records[1..], encode) + tail, "")
  {
    FirstLineAndRest(records, tail, encode);
    LineIsRead(encode(records[0]), Text(records[1..], encode) + tail, open);
  }

  lemma NothingToGlue(lines: seq<string>)
    ensures Glued("", lines) == lines
  {
    if lines != [] { assert "" + lines[0] == lines[0]; }
  }

  // The complete lines after some part of one more line.
  lemma TornIsRead(records: seq<AuditRecord>, torn: AuditRecord, n: nat, open: string, encode: AuditRecord -> string)
    requires LineEncoding(encode) && n <= |Line(torn, encode)|
    ensures Lines(Text(records, encode) + Line(torn, encode)[..n], open)
            == Glued(open, Encoded(if n < |Line(torn, encode)| then records else records + [torn], encode))
  {
    var tail, started := Line(torn, encode)[..n], if records == [] then open else "";
    TextIsRead(records, tail, open, encode);
    if n == |Line(torn, encode)| {
      assert tail == encode(torn) + "\n" + "";
      LineIsRead(encode(torn), "", started);
      EncodedGrows(records, torn, encode);
      if records != [] { assert "" + encode(torn) == encode(torn); }
    } else {
      assert tail == encode(torn)[..n];
      PartOfALineIsNotRead(tail, started);
    }
  }

  lemma EncodedGrows(records: seq<AuditRecord>, r: AuditRecord, encode: AuditRecord -> string)
    ensures Encoded(records + [r], encode) == Encoded(records, encode) + [encode(r)]
  {
  }

  // What a reader finds after the lines that were there before.
  ghost predicate Tells(text: string, prior: string, records: seq<AuditRecord>, encode: AuditRecord -> string) {
    CompleteLines(text) == CompleteLines(prior) + Glued(Fragment(prior), Encoded(records, encode))
  }

  lemma AcknowledgedTell(prior: string, acknowledged: seq<AuditRecord>, encode: AuditRecord -> string)
    requires LineEncoding(encode)
    ensures Tells(prior + Text(acknowledged, encode), prior, acknowledged, encode)
  {
    TextIsRead(acknowledged, "", Fragment(prior), encode);
    JoinedAreRead(prior, Text(acknowledged, encode), "");
    assert Text(acknowledged, encode) + "" == Text(acknowledged, encode);
  }

  lemma TornTells(prior: string, acknowledged: seq<AuditRecord>, torn: AuditRecord, n: nat, encode: AuditRecord -> string)
    requires LineEncoding(encode) && n <= |Line(torn, encode)|
    ensures Tells(prior + Text(acknowledged, encode) + Line(torn, encode)[..n], prior,
                  if n < |Line(torn, encode)| then acknowledged else acknowledged + [torn], encode)
  {
    var before, part := Text(acknowledged, encode), Line(torn, encode)[..n];
    TornIsRead(acknowledged, torn, n, Fragment(prior), encode);
    JoinedAreRead(prior, before + part, "");
    Regrouped(prior, before, part);
  }

  lemma Regrouped(a: string, b: string, c: string)
    ensures a + b + c == a + (b + c)
  {
  }

  /** Whoever reads the stream finds what was there before and then the acknowledged
      records, each on its own line and in order, and after a failure at most one more,
      never a piece of one. Only the first may continue a line an earlier process tore. */
  lemma StreamTellsTheDecisions(log: Log, prior: string, acknowledged: seq<AuditRecord>, encode: AuditRecord -> string)
    requires LineEncoding(encode) && Sound(log, prior, acknowledged, encode)
    ensures Tells(log.text, prior, acknowledged, encode)
            || (log.failed && exists torn :: Tells(log.text, prior, acknowledged + [torn], encode))
  {
    if !log.failed {
      AcknowledgedTell(prior, acknowledged, encode);
    } else {
      var torn: AuditRecord, n: nat :|
        n <= |Line(torn, encode)| && log.text == prior + Text(acknowledged, encode) + Line(torn, encode)[..n];
      TornTells(prior, acknowledged, torn, n, encode);
    }
  }

  lemma FirstToldContinuesTheFile(text: string, prior: string, told: seq<AuditRecord>, some: seq<AuditRecord>,
                                  encode: AuditRecord -> string)
    requires Tells(text, prior, told, encode) && some != [] && some <= told
    ensures CompleteLines(prior) + Encoded(some, encode) <= CompleteLines(text) <==> Whole(prior)
  {
    var before, lines := CompleteLines(prior), CompleteLines(text);
    var own := before + Encoded(some, encode);
    WholeHasNoFragment(prior);
    if Whole(prior) {
      NothingToGlue(Encoded(told, encode));
      EncodedPrefix(some, told, encode);
    } else {
      assert lines[|before|] == Fragment(prior) + encode(told[0]);
      assert |lines[|before|]| > |encode(some[0])|;
      assert own[|before|] == encode(some[0]);
    }
  }

  /** The acknowledged records are found on lines of their own if and only if the file
      ended in a complete line when it was opened. */
  lemma OwnLinesNeedAWholeFile(log: Log, prior: string, acknowledged: seq<AuditRecord>, encode: AuditRecord -> string)
    requires LineEncoding(encode) && Sound(log, prior, acknowledged, encode) && acknowledged != []
    ensures CompleteLines(prior) + Encoded(acknowledged, encode) <= CompleteLines(log.text) <==> Whole(prior)
  {
    StreamTellsTheDecisions(log, prior, acknowledged, encode);
    if Tells(log.text, prior, acknowledged, encode) {
      FirstToldContinuesTheFile(log.text, prior, acknowledged, acknowledged, encode);
    } else {
      var torn :| Tells(log.text, prior, acknowledged + [torn], encode);
      FirstToldContinuesTheFile(log.text, prior, acknowledged + [torn], acknowledged, encode);
    }
  }

  lemma EncodedPrefix(some: seq<AuditRecord>, all: seq<AuditRecord>, encode: AuditRecord -> string)
    requires some <= all
    ensures Encoded(some, encode) <= Encoded(all, encode)
  {
  }

  /** A recorder that never failed leaves whole lines to the next one, and one that failed
      leaves them exactly when all or nothing of its last line arrived. */
  lemma WhatIsLeftToTheNext(log: Log, prior: string, acknowledged: seq<AuditRecord>, record: AuditRecord,
                            encode: AuditRecord -> string, o: Outcome)
    requires LineEncoding(encode) && Sound(log, prior, acknowledged, encode) && !log.failed && Whole(prior)
    ensures Whole(log.text)
    ensures var line := Line(record, encode);
            Whole(Append(log, record, encode, o).text) <==> Arrived(line, o) == "" || Arrived(line, o) == line
  {
    if acknowledged != [] {
      var last := acknowledged[|acknowledged| - 1];
      assert Text(acknowledged, encode) == Text(acknowledged[..|acknowledged| - 1], encode) + encode(last) + "\n";
    }
    var line, arrived := Line(record, encode), Arrived(Line(record, encode), o);
    var text := Append(log, record, encode, o).text;
    assert text == log.text + arrived;
    if arrived == "" {
      assert text == log.text;
    } else if arrived != line {
      assert arrived == encode(record)[..|arrived|];
      assert text[|text| - 1] == arrived[|arrived| - 1] && arrived[|arrived| - 1] in encode(record);
    }
  }
}
