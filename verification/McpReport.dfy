// The steps of a run of torio mcp install that can fail, the report of a run, and exactly
// when a run changes the guest without reporting it.

module McpReport {
  import opened Options
  import opened McpGuest

  datatype McpStep =
    | ProbeGroup | MakeGroup | ProbeUser | MakeUser | ProbeBrokerGroups | JoinBroker | VerifyBroker
    | ProbeHome | OwnHome | RestrictHome | ProbeAgentGroups | JoinAgent | ProbePolicyDir | MakePolicyDir
    | VerifyIdentity | ReadPolicy
    | ReadPayload | Probe(f: FileName) | WriteTemp(f: FileName) | MoveTemp(f: FileName) | VerifyFile(f: FileName) | Reload
    | WriteConfig | ScrubNative | ListEntries | RemoveEntry(name: string) | AddEntry(name: string)
    | ReadOAuth | ReadRuntime | Disable | Enable | ReadDigest | Restart | VerifyActive

  datatype Report = Report(changed: bool, restartRequired: bool)

  // What a run reads of a guest that is in order.
  const ACCOUNT_PROBES := {ProbeGroup, ProbeUser, ProbeBrokerGroups}
  const BOUNDARY_PROBES := ACCOUNT_PROBES + {ProbeHome, ProbeAgentGroups, ProbePolicyDir, VerifyIdentity, ReadPolicy}
  const PAYLOAD_PROBES := {ReadPayload, Probe(BrokerFile), Probe(RelayFile), Probe(UnitFile)}

  // --- Rewriting an agent's declarations ---

  predicate RemovalBreaks(d: Declaration, faults: set<McpStep>, validName: string -> bool) {
    !validName(d.name) || RemoveEntry(d.name) in faults
  }

  predicate AdditionBreaks(service: string, faults: set<McpStep>, validName: string -> bool) {
    !validName(service) || AddEntry(service) in faults
  }

  // How many declarations go before a removal breaks.
  function Removals(ds: seq<Declaration>, faults: set<McpStep>, validName: string -> bool): (n: nat)
    ensures n <= |ds| && forall i :: 0 <= i < n ==> !RemovalBreaks(ds[i], faults, validName)
    ensures n < |ds| ==> RemovalBreaks(ds[n], faults, validName)
  {
    if ds == [] || RemovalBreaks(ds[0], faults, validName) then 0 else 1 + Removals(ds[1..], faults, validName)
  }

  // How many services are declared before an addition breaks.
  function Additions(services: seq<string>, faults: set<McpStep>, validName: string -> bool): (n: nat)
    ensures n <= |services| && forall i :: 0 <= i < n ==> !AdditionBreaks(services[i], faults, validName)
    ensures n < |services| ==> AdditionBreaks(services[n], faults, validName)
  {
    if services == [] || AdditionBreaks(services[0], faults, validName) then 0
    else 1 + Additions(services[1..], faults, validName)
  }

  // What is left of the declarations, and whether the rewriting breaks off.
  function Rewritten(ds: seq<Declaration>, services: Services, faults: set<McpStep>, validName: string -> bool): seq<Declaration> {
    var gone := Removals(ds, faults, validName);
    if gone < |ds| then ds[gone..] else CanonicalDeclarations(services)[..Additions(services, faults, validName)]
  }

  predicate RewriteBreaks(ds: seq<Declaration>, services: Services, faults: set<McpStep>, validName: string -> bool) {
    Removals(ds, faults, validName) < |ds| || Additions(services, faults, validName) < |services|
  }

  // --- The run that says nothing ---

  // The agent's declarations are not exactly the policy's, the rewriting of them breaks
  // off, and what is left is not what was there.
  ghost predicate LostDeclarations(c: Client, services: Services, faults: set<McpStep>, validName: string -> bool) {
    && ListEntries !in faults && !EntriesExact(Listing(c), services)
    && RewriteBreaks(c.declared, services, faults, validName)
    && Rewritten(c.declared, services, faults, validName) != c.declared
  }

  // That happens, and nothing before it that would be reported.
  ghost predicate Lost(c: Client, services: Services, backend: Backend, faults: set<McpStep>, validName: string -> bool) {
    && backend.Codex? && c.config == Document(services) && WriteConfig !in faults
    && (forall i :: 0 <= i < |services| ==> validName(services[i]))
    && LostDeclarations(c, services, faults, validName)
  }

  // And nothing is to be done before the client configuration either.
  ghost predicate Unreported(b: Box, payload: Option<Payload>, backend: Backend, faults: set<McpStep>, validName: string -> bool) {
    && Boundable(b.boundary) && b.boundary == Bounded(b.boundary) && faults !! BOUNDARY_PROBES
    && payload.Some? && AllInPlace(b.software, payload.value) && faults !! PAYLOAD_PROBES
    && Lost(b.client, GrantOf(b).services, backend, faults, validName)
  }

  /** A rewriting that breaks off leaves other declarations exactly when something went
      before a removal broke, or everything went and the additions that worked do not give
      it back. */
  lemma BrokenRewritesShow(ds: seq<Declaration>, services: Services, faults: set<McpStep>, validName: string -> bool)
    ensures var gone, added := Removals(ds, faults, validName), Additions(services, faults, validName);
            RewriteBreaks(ds, services, faults, validName) && Rewritten(ds, services, faults, validName) != ds
            <==> if gone < |ds| then gone > 0
                 else added < |services| && CanonicalDeclarations(services)[..added] != ds
  {
    var gone := Removals(ds, faults, validName);
    if 0 < gone < |ds| { assert |ds[gone..]| < |ds|; }
  }

  /** When no command fails, a run changes the guest without saying so exactly when all else
      is in order, the listing is not the policy's, the first declaration has a name that
      can be passed back and a later one has not. */
  lemma UnreportedWithoutFaults(b: Box, payload: Option<Payload>, backend: Backend, validName: string -> bool)
    ensures Unreported(b, payload, backend, {}, validName) <==>
            && backend.Codex? && payload.Some? && Boundable(b.boundary) && b.boundary == Bounded(b.boundary)
            && AllInPlace(b.software, payload.value) && b.client.config == Document(GrantOf(b).services)
            && (forall i :: 0 <= i < |GrantOf(b).services| ==> validName(GrantOf(b).services[i]))
            && !EntriesExact(Listing(b.client), GrantOf(b).services)
            && b.client.declared != [] && validName(b.client.declared[0].name)
            && exists i :: 0 < i < |b.client.declared| && !validName(b.client.declared[i].name)
  {
    var ds := b.client.declared;
    var gone := Removals(ds, {}, validName);
    if Boundable(b.boundary) { BrokenRewritesShow(ds, GrantOf(b).services, {}, validName); }
    if gone < |ds| {
      assert RemovalBreaks(ds[gone], {}, validName);
      if gone == 0 { assert !validName(ds[0].name); }
    } else {
      forall i | 0 <= i < |ds|
        ensures validName(ds[i].name)
      {
        assert !RemovalBreaks(ds[i], {}, validName);
      }
    }
  }

  // A box in order but for the agent's two declarations, one through something else than
  // the relay, one under a name that is never passed back.
  function TwoDeclarations(p: Payload, odd: string): Box
    requires odd != "a"
  {
    Box(Boundary(true, true, true, true, true, Home(true, true), true, Dir(Some(Grant(["a"], "d")))),
        Software(WithFiles(map[], p, INSTALL_FILES), p.unit),
        Client(Document(["a"]), false, [Declaration("a", false), Declaration(odd, true)]),
        NoOAuthDir, Runtime(IsDisabled, IsInactive, None, 0))
  }

  /** Such a run exists: it removes the first declaration, stops at the second, and reports
      no change. */
  lemma UnreportedChange(p: Payload, odd: string, validName: string -> bool)
    requires validName("a") && !validName(odd)
    ensures Unreported(TwoDeclarations(p, odd), Some(p), Codex, {}, validName)
    ensures Rewritten(TwoDeclarations(p, odd).client.declared, ["a"], {}, validName) == [Declaration(odd, true)]
  {
    var b := TwoDeclarations(p, odd);
    PayloadedIsInPlace(Software(map[], ""), p);
    assert InPlace(b.software, p, BrokerFile) && InPlace(b.software, p, RelayFile) && InPlace(b.software, p, UnitFile);
    var ds := b.client.declared;
    assert |Listing(b.client)| == 2 && |CanonicalEntries(["a"])| == 1;
    assert |multiset(Listing(b.client))| == 2 && |multiset(CanonicalEntries(["a"]))| == 1;
    assert ds[1..][0] == ds[1];
    assert Removals(ds, {}, validName) == 1;
  }
}
