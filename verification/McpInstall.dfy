// torio mcp install: probe, change only what differs, and report whether anything did.

module McpInstall {
  import opened Options
  import opened McpGuest
  import opened McpReport

  // --- The decision about Codex's own listing ---

  lemma {:induction false} DistinctCount(entries: seq<Entry>, e: Entry)
    requires forall i, j :: 0 <= i < j < |entries| ==> entries[i] != entries[j]
    ensures multiset(entries)[e] == if e in entries then 1 else 0
    decreases |entries|
  {
    if entries != [] {
      var front, last := entries[..|entries| - 1], entries[|entries| - 1];
      assert entries == front + [last];
      DistinctCount(front, e);
    }
  }

  lemma SubmultisetOfTheSameSize(small: multiset<Entry>, large: multiset<Entry>)
    requires small <= large && |small| == |large|
    ensures small == large
  {
    assert large == small + (large - small);
    assert |large - small| == 0;
  }

  /** As many entries as services, and an exact one for every service, leave no room for an
      entry the policy does not have. */
  lemma EveryServiceIsEnough(entries: seq<Entry>, services: Services)
    ensures EntriesExact(entries, services) <==>
            |entries| == |services| && forall i :: 0 <= i < |services| ==> Entry(services[i], true, true) in entries
  {
    var canonical := CanonicalEntries(services);
    if |entries| == |services| && forall i :: 0 <= i < |services| ==> Entry(services[i], true, true) in entries {
      forall e
        ensures multiset(canonical)[e] <= multiset(entries)[e]
      {
        DistinctCount(canonical, e);
        if e in canonical { assert e in entries; }
      }
      SubmultisetOfTheSameSize(multiset(canonical), multiset(entries));
    }
    if EntriesExact(entries, services) {
      assert |multiset(entries)| == |multiset(canonical)|;
      forall i | 0 <= i < |services|
        ensures Entry(services[i], true, true) in entries
      {
        assert canonical[i] in multiset(entries);
      }
    }
  }

  lemma ExactEntriesByName(entries: seq<Entry>, services: Services, e: Entry)
    requires EntriesExact(entries, services) && e in entries
    ensures e.name in services && e == Entry(e.name, true, true)
  {
    assert e in multiset(CanonicalEntries(services));
  }

  method CodexEntriesExact(entries: seq<Entry>, services: Services) returns (exact: bool)
    ensures exact <==> EntriesExact(entries, services)
  {
    EveryServiceIsEnough(entries, services);
    if |entries| != |services| { return false; }
    var byName: map<string, Entry> := map[];
    for i := 0 to |entries|
      invariant forall name <- byName :: byName[name] in entries && byName[name].name == name
      invariant forall j :: 0 <= j < i ==> entries[j].name in byName
    {
      byName := byName[entries[i].name := entries[i]];
    }
    for i := 0 to |services|
      invariant forall j :: 0 <= j < i ==> Entry(services[j], true, true) in entries
    {
      if services[i] !in byName {
        assert Entry(services[i], true, true) !in entries;
        return false;
      }
      var entry := byName[services[i]];
      if !entry.relay || !entry.enabled {
        if EntriesExact(entries, services) { ExactEntriesByName(entries, services, entry); }
        return false;
      }
      assert entry == Entry(services[i], true, true);
    }
    return true;
  }

  // codex mcp remove <name>
  function Others(ds: Declared, name: string): (r: Declared)
    ensures forall d :: d in r <==> d in ds && d.name != name
  {
    if ds == [] then []
    else if ds[0].name == name then OthersKeep(ds); ds[1..]
    else OthersKeep(ds); [ds[0]] + Others(ds[1..], name)
  }

  lemma OthersKeep(ds: Declared)
    requires ds != []
    ensures UniqueNames(ds[1..]) && forall d <- ds[1..] :: d.name != ds[0].name
  {
  }

  class Adapter {
    const validName: string -> bool
    var box: Box

    constructor (box: Box, validName: string -> bool)
      ensures this.box == box && this.validName == validName
    {
      this.box, this.validName := box, validName;
    }

    // --- The boundary ---

    method EnsureAccounts(faults: set<McpStep>) returns (changed: bool, failed: bool)
      modifies this
      ensures box == old(box).(boundary := box.boundary)
      ensures !changed && !failed ==> box == old(box)
      ensures !failed ==>
                var b := old(box).boundary;
                && box.boundary == b.(clientsGroup := true, brokerUser := true, brokerIsClient := true, home := HomeMade(b))
                && changed == !(b.clientsGroup && b.brokerUser && b.brokerIsClient)
      ensures var b := old(box).boundary;
              && (changed ==> !(b.clientsGroup && b.brokerUser && b.brokerIsClient))
              && (b.clientsGroup && b.brokerUser && b.brokerIsClient && faults !! ACCOUNT_PROBES ==> !failed)
      ensures !failed ==> faults !! ACCOUNT_PROBES
      ensures failed && box != old(box) ==> changed
      ensures faults <= {Reload} ==> !failed
    {
      changed, failed := false, true;
      if ProbeGroup in faults { return; }
      if !box.boundary.clientsGroup {
        if MakeGroup in faults { return; }
        box := box.(boundary := box.boundary.(clientsGroup := true));
        changed := true;
      }
      if ProbeUser in faults { return; }
      if !box.boundary.brokerUser {
        if MakeUser in faults { return; }
        box := box.(boundary := box.boundary.(brokerUser := true, brokerIsClient := false, home := HomeMade(box.boundary)));
        changed := true;
      }
      if ProbeBrokerGroups in faults { return; }
      if !box.boundary.brokerIsClient {
        if JoinBroker in faults { return; }
        box := box.(boundary := box.boundary.(brokerIsClient := true));
        changed := true;
        if VerifyBroker in faults { return; }
      }
      failed := false;
    }

    method EnsureBrokerHome(faults: set<McpStep>) returns (changed: bool, failed: bool)
      modifies this
      ensures box == old(box).(boundary := old(box).boundary.(home := box.boundary.home))
      ensures !failed ==> old(box).boundary.home.Home? && box.boundary.home == Home(true, true)
                          && changed == (old(box).boundary.home != Home(true, true)) && ProbeHome !in faults
      ensures old(box).boundary.home == Home(true, true) ==> !changed && failed == (ProbeHome in faults)
      ensures failed && box != old(box) ==> changed
      ensures faults <= {Reload} ==> (failed <==> !old(box).boundary.home.Home?)
    {
      changed, failed := false, true;
      if ProbeHome in faults || !box.boundary.home.Home? { return; }
      var home := box.boundary.home;
      if !home.ownerRight {
        if OwnHome in faults { return; }
        box := box.(boundary := box.boundary.(home := home.(ownerRight := true)));
        changed := true;
      }
      if !home.modeRight {
        if RestrictHome in faults { return; }
        box := box.(boundary := box.boundary.(home := Home(true, true)));
        changed := true;
      }
      failed := false;
    }

    method EnsureAgentIsClient(faults: set<McpStep>) returns (changed: bool, failed: bool)
      modifies this
      ensures box == old(box).(boundary := old(box).boundary.(agentIsClient := box.boundary.agentIsClient))
      ensures !failed ==> box.boundary.agentUser && box.boundary.agentIsClient && changed == !old(box).boundary.agentIsClient
                          && ProbeAgentGroups !in faults
      ensures box.boundary.agentUser && old(box).boundary.agentIsClient ==> failed == (ProbeAgentGroups in faults)
      ensures failed ==> box == old(box) && !changed
      ensures faults <= {Reload} ==> (failed <==> !box.boundary.agentUser)
    {
      changed, failed := false, true;
      if ProbeAgentGroups in faults || !box.boundary.agentUser { return; }
      if !box.boundary.agentIsClient {
        if JoinAgent in faults { return; }
        box := box.(boundary := box.boundary.(agentIsClient := true));
        changed := true;
      }
      failed := false;
    }

    method EnsurePolicyDir(faults: set<McpStep>) returns (changed: bool, failed: bool)
      modifies this
      ensures box == old(box).(boundary := old(box).boundary.(policyDir := box.boundary.policyDir))
      ensures !failed ==> box.boundary.policyDir == PolicyDirMade(old(box).boundary.policyDir) && box.boundary.policyDir.Dir?
                          && changed == !old(box).boundary.policyDir.Dir? && ProbePolicyDir !in faults
      ensures old(box).boundary.policyDir.Dir? ==> failed == (ProbePolicyDir in faults)
      ensures failed ==> box == old(box) && !changed
      ensures faults <= {Reload} ==> (failed <==> box.boundary.policyDir.NotADir?)
    {
      changed, failed := false, true;
      if ProbePolicyDir in faults { return; }
      if !box.boundary.policyDir.Dir? {
        if MakePolicyDir in faults || box.boundary.policyDir.NotADir? { return; }
        box := box.(boundary := box.boundary.(policyDir := Dir(None)));
        changed := true;
      }
      failed := false;
    }

    method ProvisionBoundary(faults: set<McpStep>) returns (report: Report, grant: Option<Grant>)
      modifies this
      ensures box == old(box).(boundary := box.boundary)
      ensures grant.Some? ==>
                && Boundable(old(box).boundary) && box.boundary == Bounded(old(box).boundary)
                && grant.value == GrantOf(old(box)) && grant.value == GrantOf(box)
                && report.changed == (old(box).boundary != Bounded(old(box).boundary))
                && report.restartRequired == !old(box).boundary.agentIsClient
      ensures box != old(box) ==> report.changed
      ensures report.restartRequired ==> !old(box).boundary.agentIsClient
      ensures report.changed ==> old(box).boundary != Bounded(old(box).boundary)
      ensures grant.Some? && !report.changed <==>
                && Boundable(old(box).boundary) && old(box).boundary == Bounded(old(box).boundary)
                && faults !! BOUNDARY_PROBES
      ensures faults <= {Reload} ==> (grant.Some? <==> Boundable(old(box).boundary))
    {
      report, grant := Report(false, false), None;
      var changed, failed := EnsureAccounts(faults);
      report := report.(changed := changed);
      if failed { return; }
      changed, failed := EnsureBrokerHome(faults);
      report := report.(changed := report.changed || changed);
      if failed { return; }
      changed, failed := EnsureAgentIsClient(faults);
      report := Report(report.changed || changed, changed);
      if failed { return; }
      changed, failed := EnsurePolicyDir(faults);
      report := report.(changed := report.changed || changed);
      if failed { return; }
      if VerifyIdentity in faults || !box.boundary.identityRight { return; }
      if ReadPolicy in faults { return; }
      grant := box.boundary.policyDir.grant;
    }

    // --- The payload ---

    // One file, written beside its place, synced and renamed over it.
    method EnsureInstallFile(p: Payload, f: FileName, faults: set<McpStep>) returns (changed: bool, failed: bool)
      requires f in box.software.files
      modifies this
      ensures box == old(box).(software := old(box).software.(files := box.software.files))
      ensures !failed ==> box.software.files == old(box).software.files[f := Regular(BodyOf(p, f), true)]
                          && changed == !InPlace(old(box).software, p, f)
                          && !old(box).software.files[f].Directory? && Probe(f) !in faults
      ensures InPlace(old(box).software, p, f) ==> !changed && failed == (Probe(f) in faults)
      ensures failed ==> box.software.files == old(box).software.files
                         || (changed && box.software.files == old(box).software.files[f := Regular(BodyOf(p, f), true)])
      ensures faults <= {Reload} ==> (failed <==> old(box).software.files[f].Directory?)
    {
      changed, failed := false, true;
      if Probe(f) in faults { return; }
      if box.software.files[f] == Regular(BodyOf(p, f), true) {
        assert box.software.files == box.software.files[f := Regular(BodyOf(p, f), true)];
        return false, false;
      }
      if WriteTemp(f) in faults { return; }
      changed := true;
      if MoveTemp(f) in faults || box.software.files[f].Directory? { return; }
      box := box.(software := box.software.(files := box.software.files[f := Regular(BodyOf(p, f), true)]));
      failed := VerifyFile(f) in faults;
    }

    method InstallFiles(p: Payload, faults: set<McpStep>) returns (changed: bool, failed: bool)
      requires forall f <- INSTALL_FILES :: f in box.software.files
      modifies this
      ensures box == old(box).(software := old(box).software.(files := box.software.files))
      ensures !failed ==> box.software.files == WithFiles(old(box).software.files, p, INSTALL_FILES)
                          && changed == !AllInPlace(old(box).software, p) && Installable(old(box).software)
      ensures box != old(box) ==> changed
      ensures changed ==> !AllInPlace(old(box).software, p)
      ensures !failed && !changed <==> AllInPlace(old(box).software, p) && NoProbeFails(faults)
      ensures faults <= {Reload} ==> (!failed <==> Installable(old(box).software))
    {
      changed, failed := false, true;
      ghost var start := box.software;
      WholePayload(start, p);
      for i := 0 to |INSTALL_FILES|
        invariant box == old(box).(software := start.(files := WithFiles(start.files, p, INSTALL_FILES[..i])))
        invariant if changed then !AllInPlace(start, p) else FirstInPlace(start, p, i) && box == old(box)
        invariant FirstReachable(start, i, faults)
      {
        FilesStep(start.files, p, i);
        var one, bad := EnsureInstallFile(p, INSTALL_FILES[i], faults);
        changed := changed || one;
        if bad { return; }
      }
      failed := false;
    }

    method InstallPayloadFiles(payload: Option<Payload>, faults: set<McpStep>) returns (changed: bool, failed: bool)
      requires forall f <- INSTALL_FILES :: f in box.software.files
      modifies this
      ensures box == old(box).(software := box.software)
      ensures !failed ==> payload.Some? && box.software == Payloaded(old(box).software, payload.value)
                          && changed == !AllInPlace(old(box).software, payload.value) && Installable(old(box).software)
      ensures box != old(box) ==> changed
      ensures changed ==> payload.Some? && !AllInPlace(old(box).software, payload.value)
      ensures !failed && !changed <==> payload.Some? && AllInPlace(old(box).software, payload.value) && faults !! PAYLOAD_PROBES
      ensures faults == {} ==> (!failed <==> payload.Some? && Installable(old(box).software))
      ensures faults == {Reload} && payload.Some? && Installable(old(box).software) && !AllInPlace(old(box).software, payload.value) ==>
                failed && changed && box.software == WithNewFiles(old(box).software, payload.value)
    {
      changed, failed := false, true;
      if ReadPayload in faults || payload.None? { return; }
      assert INSTALL_FILES[0] == BrokerFile && INSTALL_FILES[1] == RelayFile && INSTALL_FILES[2] == UnitFile;
      changed, failed := InstallFiles(payload.value, faults);
      if failed { return; }
      WholePayload(old(box).software, payload.value);
      if changed {
        if Reload in faults { return changed, true; }
        box := box.(software := box.software.(loadedUnit := payload.value.unit));
      }
    }

    // --- The client configuration ---

    method RemoveDeclarations(faults: set<McpStep>) returns (changed: bool, failed: bool)
      modifies this
      ensures box == old(box).(client := old(box).client.(declared := box.client.declared))
      ensures var ds := old(box).client.declared;
              var gone := Removals(ds, faults, validName);
              && box.client.declared == ds[gone..] && failed == (gone < |ds|)
              && changed == !(gone < |ds| && !validName(ds[gone].name))
    {
      var listed := box.client.declared;
      for i := 0 to |listed|
        invariant UniqueNames(listed[i..])
        invariant box == old(box).(client := old(box).client.(declared := listed[i..]))
        invariant forall j :: 0 <= j < i ==> !RemovalBreaks(listed[j], faults, validName)
      {
        assert listed[i..][1..] == listed[i + 1..];
        if !validName(listed[i].name) { return false, true; }
        if RemoveEntry(listed[i].name) in faults { return true, true; }
        OthersKeep(listed[i..]);
        box := box.(client := box.client.(declared := Others(box.client.declared, listed[i].name)));
      }
      return true, false;
    }

    method AddDeclarations(services: Services, faults: set<McpStep>) returns (failed: bool)
      requires box.client.declared == []
      modifies this
      ensures box == old(box).(client := old(box).client.(declared := box.client.declared))
      ensures box.client.declared == CanonicalDeclarations(services)[..Additions(services, faults, validName)]
      ensures failed == (Additions(services, faults, validName) < |services|)
    {
      for i := 0 to |services|
        invariant UniqueNames(CanonicalDeclarations(services)[..i])
        invariant box == old(box).(client := old(box).client.(declared := CanonicalDeclarations(services)[..i]))
        invariant forall j :: 0 <= j < i ==> !AdditionBreaks(services[j], faults, validName)
      {
        if !validName(services[i]) || AddEntry(services[i]) in faults { return true; }
        var added := box.client.declared + [Declaration(services[i], true)];
        assert added == CanonicalDeclarations(services)[..i + 1];
        box := box.(client := box.client.(declared := added));
      }
      assert CanonicalDeclarations(services)[..|services|] == CanonicalDeclarations(services);
      failed := false;
    }

    method ReconcileDeclarations(services: Services, faults: set<McpStep>) returns (changed: bool, failed: bool)
      requires box.client.config == Document(services)
      modifies this
      ensures box == old(box).(client := old(box).client.(declared := box.client.declared))
      ensures var ds, exact := old(box).client.declared, EntriesExact(Listing(old(box).client), services);
              if ListEntries in faults || exact then box == old(box) && failed == (ListEntries in faults) && !changed
              else && box.client.declared == Rewritten(ds, services, faults, validName)
                   && failed == RewriteBreaks(ds, services, faults, validName) && (!failed ==> changed)
    {
      if ListEntries in faults { return false, true; }
      var exact := CodexEntriesExact(Listing(box.client), services);
      if exact { return false, false; }
      changed, failed := RemoveDeclarations(faults);
      if failed { return; }
      failed := AddDeclarations(services, faults);
    }

    method WriteClientConfig(services: Services, faults: set<McpStep>) returns (changed: bool, failed: bool)
      modifies this
      ensures box == old(box).(client := old(box).client.(config := box.client.config))
      ensures if failed then box == old(box) && !changed
              else box.client.config == Document(services) && changed == (old(box).client.config != Document(services))
      ensures !failed ==> !old(box).client.config.Odd? && forall i :: 0 <= i < |services| ==> validName(services[i])
      ensures !failed && !changed <==> && old(box).client.config == Document(services) && WriteConfig !in faults
                                       && forall i :: 0 <= i < |services| ==> validName(services[i])
      ensures faults == {} ==>
                (!failed <==> !old(box).client.config.Odd? && forall i :: 0 <= i < |services| ==> validName(services[i]))
    {
      for i := 0 to |services|
        invariant forall j :: 0 <= j < i ==> validName(services[j])
      {
        if !validName(services[i]) { return false, true; }
      }
      if WriteConfig in faults || box.client.config.Odd? { return false, true; }
      changed, failed := box.client.config != Document(services), false;
      box := box.(client := box.client.(config := Document(services)));
    }

    // A change of the agent's own declarations that breaks off is not part of the answer.
    method ReconcileClientConfig(services: Services, backend: Backend, faults: set<McpStep>) returns (changed: bool, failed: bool)
      modifies this
      ensures box == old(box).(client := box.client)
      ensures !failed ==> box.client == Configured(old(box).client, services, backend)
                          && changed == !ConfigStays(old(box).client, services, backend)
                          && !old(box).client.config.Odd? && NamesUsable(old(box).client, services, backend, validName)
      ensures changed ==> !ConfigStays(old(box).client, services, backend)
      ensures !changed ==> box.client == old(box).client.(declared := box.client.declared)
                           && (backend.ClaudeCode? || !failed ==> box == old(box))
      ensures !changed && box != old(box) <==> Lost(old(box).client, services, backend, faults, validName)
      ensures !changed && box != old(box) ==>
                failed && box.client.declared == Rewritten(old(box).client.declared, services, faults, validName)
      ensures faults == {} ==>
                (!failed <==> !old(box).client.config.Odd? && NamesUsable(old(box).client, services, backend, validName))
    {
      changed, failed := WriteClientConfig(services, faults);
      if failed { return; }
      match backend {
        case ClaudeCode =>
          if ScrubNative in faults { return changed, true; }
          changed := changed || box.client.nativeServers;
          box := box.(client := box.client.(nativeServers := false));
        case Codex =>
          var declarationsChanged;
          declarationsChanged, failed := ReconcileDeclarations(services, faults);
          if failed { return; }
          changed := changed || declarationsChanged;
      }
    }

    // --- The runtime ---

    method OAuthPending(services: Services, faults: set<McpStep>) returns (pending: nat, failed: bool)
      ensures !failed ==> OAuthSound(box.oauth, services) && pending == Pending(box.oauth, services)
      ensures faults == {} ==> (!failed <==> OAuthSound(box.oauth, services))
    {
      pending, failed := 0, true;
      if ReadOAuth in faults { return; }
      match box.oauth {
        case NoOAuthDir =>
          NoDirNoLogin(box.oauth, services);
          return |services|, false;
        case OAuthDrifted => return;
        case Sessions(_) =>
      }
      for i := 0 to |services|
        invariant pending == Pending(box.oauth, services[..i])
        invariant forall j :: 0 <= j < i ==> !SessionOf(box.oauth, services[j]).SessionDrifted?
      {
        assert services[..i + 1][..i] == services[..i];
        match SessionOf(box.oauth, services[i]) {
          case NoSession => pending := pending + 1;
          case SessionDrifted => return;
          case Private =>
        }
      }
      assert services[..|services|] == services;
      failed := false;
    }

    method ReconcileRuntime(grant: Grant, transportChanged: bool, faults: set<McpStep>) returns (changed: bool, failed: bool)
      modifies this
      ensures box == old(box).(runtime := box.runtime)
      ensures !failed ==>
                var pending, r := Pending(box.oauth, grant.services), old(box).runtime;
                && OAuthSound(box.oauth, grant.services) && RuntimeReadable(r)
                && box.runtime == Settled(r, box.software, grant, pending, transportChanged)
                && changed == if pending > 0 then r.enabled.IsEnabled? || r.activity.IsActive?
                              else !r.enabled.IsEnabled? || RestartNeeded(r, grant, transportChanged)
      // A change of the transport always restarts the broker, once, from the installed file.
      ensures !failed && LoggedIn(box.oauth, grant.services) && transportChanged ==>
                && box.runtime.starts == old(box).runtime.starts + 1 && box.runtime.process.Some?
                && box.runtime.process.value.unit == box.software.loadedUnit && box.runtime.process.value.digest == grant.digest
                && (BrokerFile in box.software.files && box.software.files[BrokerFile].Regular? ==>
                      box.runtime.process.value.program == box.software.files[BrokerFile].body)
      ensures box != old(box) ==> changed
      ensures changed ==> !RuntimeStays(old(box).runtime, grant, Pending(box.oauth, grant.services)) || transportChanged
      ensures faults == {} ==> (!failed <==> OAuthSound(box.oauth, grant.services) && RuntimeReadable(old(box).runtime))
    {
      var pending;
      changed := false;
      pending, failed := OAuthPending(grant.services, faults);
      if failed { return; }
      NobodyIsPending(box.oauth, grant.services);
      failed := true;
      if ReadRuntime in faults || !RuntimeReadable(box.runtime) { return; }
      var isEnabled, isActive := box.runtime.enabled.IsEnabled?, box.runtime.activity.IsActive?;
      if pending > 0 {
        if isEnabled || isActive {
          if Disable in faults { return; }
          box := box.(runtime := Runtime(IsDisabled, IsInactive, None, box.runtime.starts));
          changed := true;
        }
        return changed, false;
      }
      if !isEnabled {
        if Enable in faults { return; }
        box := box.(runtime := box.runtime.(enabled := IsEnabled));
        changed := true;
      }
      var restartNeeded := !isActive || transportChanged;
      if isActive && !restartNeeded {
        if ReadDigest in faults { return; }
        restartNeeded := box.runtime.process.None? || box.runtime.process.value.digest != grant.digest;
      }
      if restartNeeded {
        if Restart in faults { return; }
        box := box.(runtime := box.runtime.(activity := IsActive, process := Some(Started(box.software, grant)),
                                            starts := box.runtime.starts + 1));
        changed := true;
        if VerifyActive in faults { return; }
      }
      failed := false;
    }

    /** Installs the broker boundary, its payload, the client configuration and the runtime.
        A run that succeeds has made the guest exactly what the policy and the payload say,
        and reports a change exactly when there was something to do. */
    method ProvisionMCPBrokerFor(payload: Option<Payload>, backend: Backend, faults: set<McpStep>)
      returns (report: Report, failed: bool)
      requires forall f <- INSTALL_FILES :: f in box.software.files
      modifies this
      ensures !failed ==>
                && payload.Some? && Boundable(old(box).boundary)
                && box == Provisioned(old(box), payload.value, backend)
                && report.changed == !NothingToDo(old(box), payload.value, backend) && (report.changed <==> box != old(box))
                && report.restartRequired == !old(box).boundary.agentIsClient
                && Provisionable(old(box), backend, validName)
      ensures report.restartRequired ==> !old(box).boundary.agentIsClient
      ensures report.changed && payload.Some? && Boundable(old(box).boundary) ==> !NothingToDo(old(box), payload.value, backend)
      // Exactly when a run changes something without reporting it; it is then only an
      // agent's own declarations.
      ensures !report.changed && box != old(box) <==> Unreported(old(box), payload, backend, faults, validName)
      ensures !report.changed ==> box == old(box).(client := old(box).client.(declared := box.client.declared))
      ensures Unreported(old(box), payload, backend, faults, validName) ==>
                failed && box.client.declared == Rewritten(old(box).client.declared, GrantOf(old(box)).services, faults, validName)
      ensures faults == {} ==> (!failed <==> payload.Some? && Provisionable(old(box), backend, validName))
      ensures faults == {Reload} && payload.Some? && Boundable(old(box).boundary) && Installable(old(box).software)
              && !AllInPlace(old(box).software, payload.value) ==>
                failed && box == Interrupted(old(box), payload.value)
    {
      var grant;
      failed := true;
      report, grant := ProvisionBoundary(faults);
      if grant.None? { return; }
      var payloadChanged, configChanged, runtimeChanged;
      payloadChanged, failed := InstallPayloadFiles(payload, faults);
      report := report.(changed := report.changed || payloadChanged);
      if failed { return; }
      configChanged, failed := ReconcileClientConfig(grant.value.services, backend, faults);
      report := report.(changed := report.changed || configChanged);
      if failed { return; }
      runtimeChanged, failed := ReconcileRuntime(grant.value, payloadChanged || configChanged, faults);
      report := report.(changed := report.changed || runtimeChanged);
      if !failed { NothingToDoMeansNoChange(old(box), payload.value, backend); }
      if !report.changed && !failed { UnchangedWhenNothingToDo(old(box), payload.value, backend); }
    }
  }

  lemma {:induction false} NoDirNoLogin(oauth: OAuth, services: seq<string>)
    requires oauth.NoOAuthDir?
    ensures Pending(oauth, services) == |services|
    decreases |services|
  {
    if services != [] { NoDirNoLogin(oauth, services[..|services| - 1]); }
  }

  /** Whatever a first run met with, once it has succeeded a second one with the same policy
      and payload changes nothing and says so, and it succeeds unless a command fails. */
  method InstallTwice(adapter: Adapter, payload: Option<Payload>, backend: Backend, faults: set<McpStep>, later: set<McpStep>)
    returns (first: Report, failed: bool, second: Report, failedAgain: bool)
    requires forall f <- INSTALL_FILES :: f in adapter.box.software.files
    modifies adapter
    ensures faults == {} ==> (!failed <==> payload.Some? && Provisionable(old(adapter.box), backend, adapter.validName))
    ensures !failed ==> payload.Some? && Boundable(old(adapter.box).boundary)
                        && adapter.box == Provisioned(old(adapter.box), payload.value, backend)
                        && second == Report(false, false) && (later == {} ==> !failedAgain)
  {
    first, failed := adapter.ProvisionMCPBrokerFor(payload, backend, faults);
    second, failedAgain := Report(false, false), true;
    if failed { return; }
    SecondRunHasNothingToDo(old(adapter.box), payload.value, backend, adapter.validName);
    NothingToDoIsReported(adapter.box, payload.value, backend, later, adapter.validName);
    second, failedAgain := adapter.ProvisionMCPBrokerFor(payload, backend, later);
  }

  lemma NothingToDoIsReported(b: Box, p: Payload, backend: Backend, faults: set<McpStep>, validName: string -> bool)
    requires Boundable(b.boundary) && NothingToDo(b, p, backend)
    ensures !Unreported(b, Some(p), backend, faults, validName)
  {
  }

  /** An upgrade that succeeds, with every login present, never leaves the earlier broker
      running: it is started once, from the new files, on the current policy. */
  method Upgrade(adapter: Adapter, p: Payload, backend: Backend, faults: set<McpStep>) returns (report: Report, failed: bool)
    requires forall f <- INSTALL_FILES :: f in adapter.box.software.files
    modifies adapter
    ensures !failed ==> Boundable(old(adapter.box).boundary)
    ensures var b := old(adapter.box);
            !failed && FileDiffers(b.software, p) && LoggedIn(b.oauth, GrantOf(b).services) ==>
              && report.changed && adapter.box.runtime.starts == b.runtime.starts + 1
              && adapter.box.runtime.process == Some(Process(p.broker, p.unit, GrantOf(b).digest))
  {
    ghost var b := adapter.box;
    report, failed := adapter.ProvisionMCPBrokerFor(Some(p), backend, faults);
    if !failed && LoggedIn(b.oauth, GrantOf(b).services) {
      NewPayloadIsStarted(b, p, backend, adapter.validName);
      DifferencesAreChanges(b, p, backend);
    }
  }

  /** A run interrupted after its files are in place and before systemd is told of them,
      and the run that follows: it succeeds, and the broker ends on the current payload
      exactly when something else made a restart necessary and systemd had the unit, or
      the broker was on the payload all along. */
  method InstallAfterInterruption(adapter: Adapter, p: Payload, backend: Backend) returns (second: Report)
    requires forall f <- INSTALL_FILES :: f in adapter.box.software.files
    requires Provisionable(adapter.box, backend, adapter.validName) && !AllInPlace(adapter.box.software, p)
    modifies adapter
    ensures var b := old(adapter.box);
            && adapter.box == Provisioned(Interrupted(b, p), p, backend)
            && second.changed == !NothingToDo(Interrupted(b, p), p, backend)
            && (Pending(b.oauth, GrantOf(b).services) == 0 ==>
                  (OnCurrentPayload(adapter.box.runtime, p) <==>
                   if Outdated(b, backend) then b.software.loadedUnit == p.unit else OnCurrentPayload(b.runtime, p)))
  {
    var first, failed := adapter.ProvisionMCPBrokerFor(Some(p), backend, {Reload});
    InterruptedRunsAgain(old(adapter.box), p, backend, adapter.validName);
    second, failed := adapter.ProvisionMCPBrokerFor(Some(p), backend, {});
  }

  predicate FirstInPlace(s: Software, p: Payload, n: nat)
    requires n <= |INSTALL_FILES|
  {
    forall j :: 0 <= j < n ==> InPlace(s, p, INSTALL_FILES[j])
  }

  predicate FirstReachable(s: Software, n: nat, faults: set<McpStep>)
    requires n <= |INSTALL_FILES|
  {
    forall j :: 0 <= j < n ==> Reachable(s, INSTALL_FILES[j], faults)
  }

  predicate Reachable(s: Software, f: FileName, faults: set<McpStep>) {
    f in s.files && !s.files[f].Directory? && Probe(f) !in faults
  }

  predicate NoProbeFails(faults: set<McpStep>) {
    Probe(BrokerFile) !in faults && Probe(RelayFile) !in faults && Probe(UnitFile) !in faults
  }

  lemma FilesStep(files: map<FileName, Installed>, p: Payload, i: nat)
    requires i < |INSTALL_FILES| && forall f <- INSTALL_FILES :: f in files
    ensures var f, done := INSTALL_FILES[i], WithFiles(files, p, INSTALL_FILES[..i]);
            && WithFiles(files, p, INSTALL_FILES[..i + 1]) == done[f := Regular(BodyOf(p, f), true)]
            && f in done && done[f] == files[f]
  {
    assert INSTALL_FILES[..i + 1][..i] == INSTALL_FILES[..i];
    assert INSTALL_FILES[i] !in INSTALL_FILES[..i];
  }

  lemma WholePayload(s: Software, p: Payload)
    ensures INSTALL_FILES[..|INSTALL_FILES|] == INSTALL_FILES
    ensures AllInPlace(s, p) <==> FirstInPlace(s, p, |INSTALL_FILES|)
    ensures AllInPlace(s, p) ==> WithFiles(s.files, p, INSTALL_FILES) == s.files
  {
    assert INSTALL_FILES[0] == BrokerFile && INSTALL_FILES[1] == RelayFile && INSTALL_FILES[2] == UnitFile;
  }
}
