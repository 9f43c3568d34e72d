// Many connections sharing one recorder: what crosses the gate, in any interleaving of
// their requests and of the forwarding of what was let through.

module BrokerRuns {
  import opened AuditLog
  import opened BrokerGate

  // The server of an accepted connection and the peer the socket names.
  datatype Connection = Connection(server: Server, uid: nat)

  // `prior` is what the audit file held when the daemon opened it.
  datatype Setting = Setting(connections: map<nat, Connection>, encode: AuditRecord -> string, hasSink: bool, prior: string)

  datatype Call = Call(service: string, tool: string, uid: nat)

  datatype Request = Other | Malformed | CallTool(tool: string)

  // The recorder, the calls let through and not yet forwarded, and those made upstream.
  datatype State = State(log: Log, acknowledged: seq<AuditRecord>, admitted: multiset<Call>, calls: seq<Call>)

  function Start(g: Setting): State { State(Log(g.prior, false), [], multiset{}, []) }

  datatype Action =
    | Receive(c: nat, request: Request, time: int, o: Outcome)
    | Forward(call: Call)
    | Abandon(call: Call)

  predicate Allows(c: Connection, tool: string) { tool in c.server.writes }

  function RecordOf(c: Connection, tool: string, time: int): AuditRecord {
    AuditRecord(time, c.uid, c.server.service, tool, Allows(c, tool) && c.server.writes[tool], Allows(c, tool))
  }

  function CallOf(r: AuditRecord): Call { Call(r.service, r.tool, r.uid) }

  predicate Recorded(s: State, line: string, o: Outcome, g: Setting) { g.hasSink && !s.log.failed && Succeeds(line, o) }

  function Do(s: State, a: Action, g: Setting): State {
    match a
    case Receive(c, request, time, o) =>
      if c !in g.connections || !request.CallTool? || !g.hasSink then s
      else
        var record := RecordOf(g.connections[c], request.tool, time);
        var ok := Recorded(s, Line(record, g.encode), o, g);
        State(Append(s.log, record, g.encode, o),
              if ok then s.acknowledged + [record] else s.acknowledged,
              if ok && record.allowed then s.admitted + multiset{CallOf(record)} else s.admitted,
              s.calls)
    case Forward(call) =>
      if call in s.admitted then s.(admitted := s.admitted - multiset{call}, calls := s.calls + [call]) else s
    case Abandon(call) =>
      s.(admitted := s.admitted - multiset{call})
  }

  function Exec(s: State, actions: seq<Action>, g: Setting): State {
    if actions == [] then s else Do(Exec(s, actions[..|actions| - 1], g), actions[|actions| - 1], g)
  }

  // The calls the records allow, each record counting once.
  function AllowedCalls(records: seq<AuditRecord>): multiset<Call> {
    if records == [] then multiset{}
    else
      var last := records[|records| - 1];
      AllowedCalls(records[..|records| - 1]) + if last.allowed then multiset{CallOf(last)} else multiset{}
  }

  // The record says what the policy of its connection says.
  predicate Truthful(r: AuditRecord, g: Setting) {
    exists c <- g.connections :: r == RecordOf(g.connections[c], r.tool, r.time)
  }

  ghost predicate Guarded(s: State, g: Setting) {
    && Sound(s.log, g.prior, s.acknowledged, g.encode)
    && (forall r <- s.acknowledged :: Truthful(r, g))
    && multiset(s.calls) + s.admitted <= AllowedCalls(s.acknowledged)
  }

  lemma ReceiveKeepsGuard(s: State, c: nat, tool: string, time: int, o: Outcome, g: Setting)
    requires Guarded(s, g) && c in g.connections && g.hasSink
    ensures Guarded(Do(s, Receive(c, CallTool(tool), time, o), g), g)
  {
    var record := RecordOf(g.connections[c], tool, time);
    AppendKeepsSound(s.log, g.prior, s.acknowledged, record, g.encode, o);
    assert Truthful(record, g);
    assert (s.acknowledged + [record])[..|s.acknowledged|] == s.acknowledged;
  }

  lemma StepKeepsGuard(s: State, a: Action, g: Setting)
    requires Guarded(s, g)
    ensures Guarded(Do(s, a, g), g)
  {
    match a
    case Receive(c, request, time, o) =>
      if c in g.connections && request.CallTool? && g.hasSink { ReceiveKeepsGuard(s, c, request.tool, time, o, g); }
    case Forward(call) =>
      if call in s.admitted {
        assert multiset(s.calls + [call]) + (s.admitted - multiset{call}) == multiset(s.calls) + s.admitted;
      }
    case Abandon(call) =>
  }

  /** In every interleaving, at every moment: each call made upstream has an allowed record
      of its own, for that service, tool and peer, acknowledged by the recorder. */
  lemma {:induction false} EveryCallIsOnRecord(actions: seq<Action>, g: Setting)
    ensures Guarded(Exec(Start(g), actions, g), g)
    decreases |actions|
  {
    if actions != [] {
      EveryCallIsOnRecord(actions[..|actions| - 1], g);
      StepKeepsGuard(Exec(Start(g), actions[..|actions| - 1], g), actions[|actions| - 1], g);
    }
  }

  lemma {:induction false} AllowedCallsHaveRecords(records: seq<AuditRecord>, call: Call)
    requires call in AllowedCalls(records)
    ensures exists r <- records :: r.allowed && CallOf(r) == call
    decreases |records|
  {
    var front, last := records[..|records| - 1], records[|records| - 1];
    if last.allowed && CallOf(last) == call {
      assert last in records;
    } else {
      AllowedCallsHaveRecords(front, call);
      var r :| r in front && r.allowed && CallOf(r) == call;
      assert r in records;
    }
  }

  // A complete line that was not there before.
  predicate AddedLine(before: string, after: string, line: string) {
    exists i :: |CompleteLines(before)| <= i < |CompleteLines(after)| && CompleteLines(after)[i] == line
  }

  /** Only granted tools are ever forwarded, and whoever reads the stream finds the line
      that allowed the call, complete and on its own, when the file the daemon opened ended
      in a complete line. */
  lemma OnlyGrantedToolsAreForwarded(actions: seq<Action>, g: Setting, call: Call)
    requires LineEncoding(g.encode) && call in Exec(Start(g), actions, g).calls
    ensures exists c <- g.connections ::
              var k := g.connections[c];
              k.server.service == call.service && k.uid == call.uid && call.tool in k.server.writes
    ensures Whole(g.prior) ==>
              exists r: AuditRecord :: r.allowed && CallOf(r) == call
                        && AddedLine(g.prior, Exec(Start(g), actions, g).log.text, g.encode(r))
  {
    var s := Exec(Start(g), actions, g);
    EveryCallIsOnRecord(actions, g);
    assert call in multiset(s.calls);
    AllowedCallsHaveRecords(s.acknowledged, call);
    var r :| r in s.acknowledged && r.allowed && CallOf(r) == call;
    assert Truthful(r, g);
    OwnLinesNeedAWholeFile(s.log, g.prior, s.acknowledged, g.encode);
    StreamTellsTheDecisions(s.log, g.prior, s.acknowledged, g.encode);
    if Whole(g.prior) {
      var i :| 0 <= i < |s.acknowledged| && s.acknowledged[i] == r;
      var before, lines := CompleteLines(g.prior), CompleteLines(s.log.text);
      assert (before + Encoded(s.acknowledged, g.encode))[|before| + i] == g.encode(r);
      assert lines[|before| + i] == g.encode(r);
    }
  }

  // A daemon's life in which one call arrives, is allowed, and is forwarded.
  function OneCall(c: nat, tool: string, time: int, g: Setting): seq<Action>
    requires c in g.connections
  {
    var record := RecordOf(g.connections[c], tool, time);
    [Receive(c, CallTool(tool), time, Wrote(|Line(record, g.encode)|, false, false)), Forward(CallOf(record))]
  }

  lemma OneCallIsForwarded(c: nat, tool: string, time: int, g: Setting)
    requires c in g.connections && Allows(g.connections[c], tool) && g.hasSink
    ensures var record, t := RecordOf(g.connections[c], tool, time), Exec(Start(g), OneCall(c, tool, time, g), g);
            && t.calls == [CallOf(record)] && t.acknowledged == [record]
            && t.log == Log(g.prior + Line(record, g.encode), false)
  {
    var actions := OneCall(c, tool, time, g);
    assert actions[..1] == [actions[0]] && actions[..1][..0] == [];
    assert Exec(Start(g), actions[..1], g) == Do(Start(g), actions[0], g);
  }

  /** The condition is needed. A daemon whose first write is cut short refuses that call;
      the next one opens the file with the torn tail and allows and forwards a call, whose
      line is not there: what there is, is the tail with the line behind it. */
  lemma RestartAfterATornTail(c: nat, tool: string, time: int, later: int, n: nat, g: Setting)
    requires LineEncoding(g.encode) && g.hasSink && g.prior == "" && c in g.connections && Allows(g.connections[c], tool)
    requires 0 < n <= |g.encode(RecordOf(g.connections[c], tool, time))|
    ensures var torn, record := RecordOf(g.connections[c], tool, time), RecordOf(g.connections[c], tool, later);
            var s := Do(Start(g), Receive(c, CallTool(tool), time, Wrote(n, true, false)), g);
            var restarted := g.(prior := s.log.text);
            var t := Exec(Start(restarted), OneCall(c, tool, later, restarted), restarted);
            && s.log.failed && s.admitted == multiset{} && !Whole(s.log.text)
            && t.calls == [CallOf(record)] && t.acknowledged == [record] && !t.log.failed
            && CompleteLines(t.log.text) == [g.encode(torn)[..n] + g.encode(record)]
  {
    var torn, record := RecordOf(g.connections[c], tool, time), RecordOf(g.connections[c], tool, later);
    var part := g.encode(torn)[..n];
    var s := Do(Start(g), Receive(c, CallTool(tool), time, Wrote(n, true, false)), g);
    assert s.log.text == part by {
      assert Line(torn, g.encode)[..n] == part;
      assert "" + part == part;
    }
    assert part[n - 1] in g.encode(torn);
    var restarted := g.(prior := part);
    OneCallIsForwarded(c, tool, later, restarted);
    JoinedAreRead(part, Line(record, g.encode), "");
    PartOfALineIsNotRead(part, "");
    PartIsAFragment(part, "");
    assert Line(record, g.encode) == g.encode(record) + "\n" + "";
    LineIsRead(g.encode(record), "", "" + part);
    assert "" + part == part;
  }

  lemma {:induction false} PartIsAFragment(part: string, started: string)
    requires '\n' !in part
    ensures Rest(part, started) == started + part
    decreases |part|
  {
    if part == "" {
      assert started + part == started;
    } else {
      PartIsAFragment(part[1..], started + [part[0]]);
      assert started + [part[0]] + part[1..] == started + part;
    }
  }

  /** After the first failed write or sync nothing is recorded and no call is let through
      any more; only what was let through before can still be forwarded. */
  lemma {:induction false} FailureIsFinal(s: State, actions: seq<Action>, g: Setting)
    requires s.log.failed
    ensures var t := Exec(s, actions, g);
            && t.log == s.log && t.acknowledged == s.acknowledged
            && multiset(t.calls) + t.admitted <= multiset(s.calls) + s.admitted
    decreases |actions|
  {
    if actions != [] {
      FailureIsFinal(s, actions[..|actions| - 1], g);
      var t := Exec(s, actions[..|actions| - 1], g);
      var a := actions[|actions| - 1];
      if a.Forward? && a.call in t.admitted {
        assert multiset(t.calls + [a.call]) + (t.admitted - multiset{a.call}) == multiset(t.calls) + t.admitted;
      }
    }
  }

  // --- Every decision is on record ---

  // The record says who asked for what, and whether the connection's grant has it.
  predicate Decides(r: AuditRecord, c: Connection, tool: string, time: int) {
    && r.time == time && r.uid == c.uid && r.service == c.server.service && r.tool == tool
    && (r.allowed <==> tool in c.server.writes) && (r.writes <==> tool in c.server.writes && c.server.writes[tool])
  }

  lemma OneDecision(r: AuditRecord, c: Connection, tool: string, time: int)
    ensures Decides(r, c, tool, time) <==> r == RecordOf(c, tool, time)
  {
  }

  predicate IsToolCall(a: Action, g: Setting) { a.Receive? && a.request.CallTool? && a.c in g.connections }

  // The tool calls that arrive on accepted connections, in order.
  datatype Received = Received(c: nat, tool: string, time: int, o: Outcome)

  function ToolCalls(actions: seq<Action>, g: Setting): seq<Received> {
    if actions == [] then []
    else
      var last := actions[|actions| - 1];
      ToolCalls(actions[..|actions| - 1], g)
      + if IsToolCall(last, g) then [Received(last.c, last.request.tool, last.time, last.o)] else []
  }

  // The record of a tool call, and whether it arrives whole and is synced.
  ghost predicate IsRecordOf(r: AuditRecord, call: Received, g: Setting) {
    call.c in g.connections && Decides(r, g.connections[call.c], call.tool, call.time)
  }

  predicate Lasts(r: AuditRecord, call: Received, g: Setting) {
    var size := |g.encode(r)| + 1;
    call.o.Wrote? && call.o.accepted >= size && !call.o.writeFails && !call.o.syncFails
  }

  // One record for each tool call up to the first whose record does not last, in order.
  ghost predicate RecordedInOrder(records: seq<AuditRecord>, failed: bool, calls: seq<Received>, g: Setting) {
    && |records| <= |calls| && (failed <==> |records| < |calls|)
    && (forall i :: 0 <= i < |records| ==> IsRecordOf(records[i], calls[i], g) && Lasts(records[i], calls[i], g))
    && (failed ==> exists r :: IsRecordOf(r, calls[|records|], g) && !Lasts(r, calls[|records|], g))
  }

  lemma ReceivingRecords(s: State, call: Received, calls: seq<Received>, g: Setting)
    requires g.hasSink && call.c in g.connections && RecordedInOrder(s.acknowledged, s.log.failed, calls, g)
    ensures var t := Do(s, Receive(call.c, CallTool(call.tool), call.time, call.o), g);
            RecordedInOrder(t.acknowledged, t.log.failed, calls + [call], g)
  {
    var record, more := RecordOf(g.connections[call.c], call.tool, call.time), calls + [call];
    var t := Do(s, Receive(call.c, CallTool(call.tool), call.time, call.o), g);
    OneDecision(record, g.connections[call.c], call.tool, call.time);
    assert forall i :: 0 <= i < |calls| ==> more[i] == calls[i];
    if s.log.failed {
      assert t.acknowledged == s.acknowledged;
    } else if !Lasts(record, call, g) {
      assert IsRecordOf(record, more[|t.acknowledged|], g);
    }
  }

  // Nothing that was let through is given up.
  predicate NoneAbandoned(actions: seq<Action>) { forall a <- actions :: !a.Abandon? }

  lemma OtherStepsRecordNothing(s: State, a: Action, g: Setting)
    requires !IsToolCall(a, g)
    ensures var t := Do(s, a, g); t.acknowledged == s.acknowledged && t.log == s.log
  {
  }

  /** Every tool call that arrives leaves a record of its own, granted or not, in the order in
      which they arrive, until a record cannot be kept. */
  lemma {:induction false} EveryDecisionIsOnRecord(actions: seq<Action>, g: Setting)
    requires g.hasSink
    ensures var t := Exec(Start(g), actions, g); RecordedInOrder(t.acknowledged, t.log.failed, ToolCalls(actions, g), g)
    decreases |actions|
  {
    if actions != [] {
      var front, last := actions[..|actions| - 1], actions[|actions| - 1];
      EveryDecisionIsOnRecord(front, g);
      var s := Exec(Start(g), front, g);
      if IsToolCall(last, g) {
        var call := Received(last.c, last.request.tool, last.time, last.o);
        assert last == Receive(call.c, CallTool(call.tool), call.time, call.o);
        ReceivingRecords(s, call, ToolCalls(front, g), g);
      } else {
        OtherStepsRecordNothing(s, last, g);
        assert ToolCalls(actions, g) == ToolCalls(front, g);
      }
    }
  }

  /** And what the records allow is what was forwarded or waits to be, as long as none is
      given up. */
  lemma {:induction false} AllowedCallsAreForwarded(actions: seq<Action>, g: Setting)
    requires NoneAbandoned(actions)
    ensures var t := Exec(Start(g), actions, g); multiset(t.calls) + t.admitted == AllowedCalls(t.acknowledged)
    decreases |actions|
  {
    if actions != [] {
      var front, last := actions[..|actions| - 1], actions[|actions| - 1];
      assert last in actions && forall a <- front :: a in actions;
      AllowedCallsAreForwarded(front, g);
      StepAccounts(Exec(Start(g), front, g), last, g);
    }
  }

  predicate Balanced(s: State) { multiset(s.calls) + s.admitted == AllowedCalls(s.acknowledged) }

  lemma ReceiveBalances(s: State, c: nat, tool: string, time: int, o: Outcome, g: Setting)
    requires Balanced(s) && c in g.connections && g.hasSink
    ensures Balanced(Do(s, Receive(c, CallTool(tool), time, o), g))
  {
    var record := RecordOf(g.connections[c], tool, time);
    var more := s.acknowledged + [record];
    assert more[..|s.acknowledged|] == s.acknowledged;
    assert AllowedCalls(more) == AllowedCalls(s.acknowledged) + if record.allowed then multiset{CallOf(record)} else multiset{};
  }

  lemma StepAccounts(s: State, a: Action, g: Setting)
    requires !a.Abandon? && Balanced(s)
    ensures Balanced(Do(s, a, g))
  {
    match a
    case Receive(c, request, time, o) =>
      if c in g.connections && request.CallTool? && g.hasSink { ReceiveBalances(s, c, request.tool, time, o, g); }
    case Forward(call) =>
      if call in s.admitted {
        assert multiset(s.calls + [call]) + (s.admitted - multiset{call}) == multiset(s.calls) + s.admitted;
      }
  }

  // --- The gate's code ---

  class Broker {
    const connections: map<nat, Connection>
    const recorder: JsonRecorder
    var admitted: multiset<Call>
    var calls: seq<Call>

    ghost predicate Valid()
      reads this, recorder
    {
      recorder.Valid()
    }

    ghost function View(): State
      reads this, recorder
    {
      State(recorder.log, recorder.acknowledged, admitted, calls)
    }

    ghost function Rules(): Setting { Setting(connections, recorder.encode, recorder.hasSink, recorder.prior) }

    constructor (connections: map<nat, Connection>, recorder: JsonRecorder)
      requires recorder.Valid()
      ensures Valid() && this.connections == connections && this.recorder == recorder
      ensures admitted == multiset{} && calls == []
    {
      this.connections, this.recorder, this.admitted, this.calls := connections, recorder, multiset{}, [];
    }

    // A request that is not a tool call passes; a tool call passes only once its own
    // allowed decision is recorded.
    method AuditMiddleware(c: nat, request: Request, time: int, o: Outcome) returns (passes: bool)
      requires Valid() && c in connections
      modifies this, recorder
      ensures Valid() && View() == Do(old(View()), Receive(c, request, time, o), Rules())
      ensures admitted == if passes && request.CallTool?
                          then old(admitted) + multiset{Call(connections[c].server.service, request.tool, connections[c].uid)}
                          else old(admitted)
      ensures !request.CallTool? ==> passes == request.Other?
      // A tool call is recorded whether it is granted or not, and passes if it is.
      ensures request.CallTool? ==>
                exists r :: && Decides(r, connections[c], request.tool, time)
                            && (passes <==> recorder.acknowledged == old(recorder.acknowledged) + [r] && r.allowed)
                            && (recorder.acknowledged == old(recorder.acknowledged) + [r] <==>
                                recorder.hasSink && !old(recorder.log).failed && Succeeds(Line(r, recorder.encode), o))
    {
      if request.Other? { return true; }
      if request.Malformed? { return false; }
      var server := connections[c].server;
      var allowed := request.tool in server.writes;
      var isWrite := allowed && server.writes[request.tool];
      var record := AuditRecord(time, connections[c].uid, server.service, request.tool, isWrite, allowed);
      assert Decides(record, connections[c], request.tool, time);
      var ok := recorder.Record(record, o);
      if !ok { return false; }
      if !allowed { return false; }
      admitted := admitted + multiset{Call(server.service, request.tool, connections[c].uid)};
      return true;
    }

    // A call that was let through reaches the upstream under its own name.
    method ForwardTool(call: Call)
      requires Valid() && call in admitted
      modifies this
      ensures Valid() && View() == Do(old(View()), Forward(call), Rules())
      ensures calls == old(calls) + [call]
    {
      admitted := admitted - multiset{call};
      calls := calls + [call];
    }
  }
}
