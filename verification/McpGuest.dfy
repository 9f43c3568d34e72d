// What `torio mcp install` finds and changes on the guest, and what a run of it makes of
// that: the specification the reconciler's methods are proved against.

module McpGuest {
  import opened Options

  type Bytes = string

  datatype Backend = ClaudeCode | Codex

  // --- The guest ---

  datatype Home = NoHome | Home(ownerRight: bool, modeRight: bool)

  type Services = s: seq<string> | forall i, j :: 0 <= i < j < |s| ==> s[i] != s[j]
    witness []

  // The grant of the policy documents: its services and a digest of all of it.
  datatype Grant = Grant(services: Services, digest: string)

  // The policy directory, and the grant its documents carry when they are sound.
  datatype PolicyDir = NoDir | NotADir | Dir(grant: Option<Grant>)

  datatype FileName = BrokerFile | RelayFile | UnitFile

  const INSTALL_FILES := [BrokerFile, RelayFile, UnitFile]

  // What a path to install holds; `proper` is root:root with the right mode.
  datatype Installed = Missing | Directory | Regular(body: Bytes, proper: bool)

  datatype Enabled = IsEnabled | IsDisabled | EnabledUnclear

  datatype Activity = IsActive | IsInactive | ActivityUnclear

  // The broker process: the program it was started from and the policy it loaded.
  datatype Process = Process(program: Bytes, unit: Bytes, digest: string)

  datatype Session = NoSession | Private | SessionDrifted

  datatype OAuth = NoOAuthDir | OAuthDrifted | Sessions(of: map<string, Session>)

  // The root-owned client configuration: the document for some services, or anything else.
  datatype ClientConfig = NoConfig | Odd | Document(services: Services) | Foreign(text: string)

  // One MCP server the agent declared; `relay` says that it is stdio to the relay, with its
  // own name as the only argument.
  datatype Declaration = Declaration(name: string, relay: bool)

  predicate UniqueNames(ds: seq<Declaration>) { forall i, j :: 0 <= i < j < |ds| ==> ds[i].name != ds[j].name }

  // Codex keeps the declarations in a table: a name has one.
  type Declared = ds: seq<Declaration> | UniqueNames(ds)
    witness []

  // The groups, users and directories of the custody boundary. `identityRight` is what the
  // checks of both identities ask beyond what the steps put right.
  datatype Boundary = Boundary(clientsGroup: bool, brokerUser: bool, brokerIsClient: bool, agentUser: bool,
                               agentIsClient: bool, home: Home, identityRight: bool, policyDir: PolicyDir)

  datatype Software = Software(files: map<FileName, Installed>, loadedUnit: Bytes)

  datatype Client = Client(config: ClientConfig, nativeServers: bool, declared: Declared)

  // `starts` counts how often the broker was started.
  datatype Runtime = Runtime(enabled: Enabled, activity: Activity, process: Option<Process>, starts: nat)

  datatype Box = Box(boundary: Boundary, software: Software, client: Client, oauth: OAuth, runtime: Runtime)

  datatype Payload = Payload(broker: Bytes, relay: Bytes, unit: Bytes)

  // --- The boundary ---

  // useradd makes a home that others can enter.
  function HomeMade(b: Boundary): Home { if !b.brokerUser && b.home.NoHome? then Home(true, false) else b.home }

  function PolicyDirMade(dir: PolicyDir): PolicyDir { if dir.NoDir? then Dir(None) else dir }

  // The groups, the broker user, its home and the policy directory in order.
  function Bounded(b: Boundary): Boundary {
    b.(clientsGroup := true, brokerUser := true, brokerIsClient := true, agentIsClient := true,
       home := Home(true, true), policyDir := PolicyDirMade(b.policyDir))
  }

  // What no step can put right is right, and there is a sound policy.
  predicate Boundable(b: Boundary) {
    HomeMade(b).Home? && b.agentUser && b.identityRight && b.policyDir.Dir? && b.policyDir.grant.Some?
  }

  function GrantOf(b: Box): Grant
    requires Boundable(b.boundary)
  {
    b.boundary.policyDir.grant.value
  }

  // --- The payload ---

  function BodyOf(p: Payload, f: FileName): Bytes {
    match f
    case BrokerFile => p.broker
    case RelayFile => p.relay
    case UnitFile => p.unit
  }

  predicate Installable(s: Software) { forall f <- INSTALL_FILES :: f in s.files && !s.files[f].Directory? }

  predicate InPlace(s: Software, p: Payload, f: FileName) { f in s.files && s.files[f] == Regular(BodyOf(p, f), true) }

  predicate AllInPlace(s: Software, p: Payload) {
    InPlace(s, p, BrokerFile) && InPlace(s, p, RelayFile) && InPlace(s, p, UnitFile)
  }

  function WithFiles(files: map<FileName, Installed>, p: Payload, names: seq<FileName>): (r: map<FileName, Installed>)
    ensures forall f :: f in r <==> f in files || f in names
    ensures forall f <- r :: r[f] == if f in names then Regular(BodyOf(p, f), true) else files[f]
  {
    if names == [] then files
    else WithFiles(files, p, names[..|names| - 1])[names[|names| - 1] := Regular(BodyOf(p, names[|names| - 1]), true)]
  }

  function Payloaded(s: Software, p: Payload): Software {
    if AllInPlace(s, p) then s else Software(WithFiles(s.files, p, INSTALL_FILES), p.unit)
  }

  // New files that systemd has not been told of.
  function WithNewFiles(s: Software, p: Payload): Software { s.(files := WithFiles(s.files, p, INSTALL_FILES)) }

  lemma PayloadedIsInPlace(s: Software, p: Payload)
    ensures AllInPlace(Payloaded(s, p), p)
  {
    assert INSTALL_FILES[0] == BrokerFile && INSTALL_FILES[1] == RelayFile && INSTALL_FILES[2] == UnitFile;
  }

  // --- The client configuration ---

  // What Codex resolves: a declaration runs when the allowlist names it through the relay.
  datatype Entry = Entry(name: string, relay: bool, enabled: bool)

  function EntryOf(d: Declaration, config: ClientConfig): Entry {
    Entry(d.name, d.relay, d.relay && config.Document? && d.name in config.services)
  }

  function Listing(c: Client): (r: seq<Entry>)
    ensures |r| == |c.declared|
    ensures forall i :: 0 <= i < |r| ==> r[i] == EntryOf(c.declared[i], c.config)
  {
    seq(|c.declared|, i requires 0 <= i < |c.declared| => EntryOf(c.declared[i], c.config))
  }

  function CanonicalDeclarations(services: Services): (r: Declared)
    ensures |r| == |services|
    ensures forall i :: 0 <= i < |r| ==> r[i] == Declaration(services[i], true)
  {
    seq(|services|, i requires 0 <= i < |services| => Declaration(services[i], true))
  }

  function CanonicalEntries(services: seq<string>): (r: seq<Entry>)
    ensures |r| == |services|
    ensures forall i :: 0 <= i < |r| ==> r[i] == Entry(services[i], true, true)
  {
    seq(|services|, i requires 0 <= i < |services| => Entry(services[i], true, true))
  }

  // The entries are exactly the policy's, reached through the relay and permitted.
  ghost predicate EntriesExact(entries: seq<Entry>, services: seq<string>) {
    multiset(entries) == multiset(CanonicalEntries(services))
  }

  ghost function Configured(c: Client, services: Services, backend: Backend): Client {
    var written := c.(config := Document(services));
    match backend
    case ClaudeCode => written.(nativeServers := false)
    case Codex => if EntriesExact(Listing(written), services) then written
                  else written.(declared := CanonicalDeclarations(services))
  }

  ghost predicate ConfigStays(c: Client, services: Services, backend: Backend) {
    && c.config == Document(services)
    && match backend
       case ClaudeCode => !c.nativeServers
       case Codex => EntriesExact(Listing(c), services)
  }

  lemma ConfiguredStays(c: Client, services: Services, backend: Backend)
    ensures ConfigStays(Configured(c, services, backend), services, backend)
    ensures ConfigStays(c, services, backend) ==> Configured(c, services, backend) == c
  {
    var done := Configured(c, services, backend);
    if done.declared == CanonicalDeclarations(services) {
      assert Listing(done) == CanonicalEntries(services);
    }
  }

  // --- The runtime ---

  function SessionOf(oauth: OAuth, service: string): Session {
    if oauth.Sessions? && service in oauth.of then oauth.of[service] else NoSession
  }

  function Pending(oauth: OAuth, services: seq<string>): nat {
    if services == [] then 0
    else Pending(oauth, services[..|services| - 1]) + if SessionOf(oauth, services[|services| - 1]).NoSession? then 1 else 0
  }

  // Whether the private login state can be relied on.
  predicate OAuthSound(oauth: OAuth, services: seq<string>) {
    !oauth.OAuthDrifted? && forall i :: 0 <= i < |services| ==> !SessionOf(oauth, services[i]).SessionDrifted?
  }

  predicate RuntimeReadable(r: Runtime) { !r.enabled.EnabledUnclear? && !r.activity.ActivityUnclear? }

  // The process a restart makes.
  function Started(s: Software, grant: Grant): Process {
    Process(if BrokerFile in s.files && s.files[BrokerFile].Regular? then s.files[BrokerFile].body else "",
            s.loadedUnit, grant.digest)
  }

  predicate RestartNeeded(r: Runtime, grant: Grant, transportChanged: bool) {
    !r.activity.IsActive? || transportChanged || r.process.None? || r.process.value.digest != grant.digest
  }

  function Settled(r: Runtime, s: Software, grant: Grant, pending: nat, transportChanged: bool): Runtime {
    if pending > 0 then
      if r.enabled.IsEnabled? || r.activity.IsActive? then Runtime(IsDisabled, IsInactive, None, r.starts) else r
    else if RestartNeeded(r, grant, transportChanged) then Runtime(IsEnabled, IsActive, Some(Started(s, grant)), r.starts + 1)
    else r.(enabled := IsEnabled)
  }

  predicate RuntimeStays(r: Runtime, grant: Grant, pending: nat) {
    if pending > 0 then !r.enabled.IsEnabled? && !r.activity.IsActive?
    else r.enabled.IsEnabled? && !RestartNeeded(r, grant, false)
  }

  // --- A whole run ---

  // Names Torio would write; Codex declarations are only taken back under such names.
  ghost predicate NamesUsable(c: Client, services: Services, backend: Backend, validName: string -> bool) {
    && (forall i :: 0 <= i < |services| ==> validName(services[i]))
    && (backend.Codex? && !EntriesExact(Listing(c.(config := Document(services))), services) ==>
          forall i :: 0 <= i < |c.declared| ==> validName(c.declared[i].name))
  }

  // Everything a run needs and cannot make.
  ghost predicate Provisionable(b: Box, backend: Backend, validName: string -> bool) {
    && Boundable(b.boundary) && Installable(b.software) && !b.client.config.Odd?
    && NamesUsable(b.client, GrantOf(b).services, backend, validName)
    && OAuthSound(b.oauth, GrantOf(b).services) && RuntimeReadable(b.runtime)
  }

  ghost predicate TransportChanges(b: Box, p: Payload, backend: Backend)
    requires Boundable(b.boundary)
  {
    !AllInPlace(b.software, p) || !ConfigStays(b.client, GrantOf(b).services, backend)
  }

  ghost function Provisioned(b: Box, p: Payload, backend: Backend): Box
    requires Boundable(b.boundary)
  {
    var grant, software := GrantOf(b), Payloaded(b.software, p);
    Box(Bounded(b.boundary), software, Configured(b.client, grant.services, backend), b.oauth,
        Settled(b.runtime, software, grant, Pending(b.oauth, grant.services), TransportChanges(b, p, backend)))
  }

  ghost predicate NothingToDo(b: Box, p: Payload, backend: Backend)
    requires Boundable(b.boundary)
  {
    && b.boundary == Bounded(b.boundary) && !TransportChanges(b, p, backend)
    && RuntimeStays(b.runtime, GrantOf(b), Pending(b.oauth, GrantOf(b).services))
  }

  /** A second run on the guest a run has left finds nothing to do and leaves it as it is. */
  lemma SecondRunHasNothingToDo(b: Box, p: Payload, backend: Backend, validName: string -> bool)
    requires Provisionable(b, backend, validName)
    ensures var c := Provisioned(b, p, backend);
            Provisionable(c, backend, validName) && NothingToDo(c, p, backend) && Provisioned(c, p, backend) == c
  {
    var c := Provisioned(b, p, backend);
    PayloadedIsInPlace(b.software, p);
    ConfiguredStays(b.client, GrantOf(b).services, backend);
    UnchangedWhenNothingToDo(c, p, backend);
  }

  /** When a run has nothing to do, it leaves the guest exactly as it is. */
  lemma UnchangedWhenNothingToDo(c: Box, p: Payload, backend: Backend)
    requires Boundable(c.boundary) && NothingToDo(c, p, backend)
    ensures Provisioned(c, p, backend) == c
  {
    ConfiguredStays(c.client, GrantOf(c).services, backend);
  }

  /** With every login present the broker ends enabled, active and on the current policy;
      with one missing it ends neither enabled nor active. */
  lemma RuntimeFollowsTheLogins(b: Box, p: Payload, backend: Backend, validName: string -> bool)
    requires Provisionable(b, backend, validName)
    ensures var r := Provisioned(b, p, backend).runtime;
            if Pending(b.oauth, GrantOf(b).services) > 0 then r.enabled.IsDisabled? && r.activity.IsInactive?
            else && r.enabled.IsEnabled? && r.activity.IsActive?
                 && r.process.Some? && r.process.value.digest == GrantOf(b).digest
  {
  }

  lemma PayloadedStays(s: Software, p: Payload)
    ensures Payloaded(s, p) == s <==> AllInPlace(s, p)
  {
    PayloadedIsInPlace(s, p);
  }

  lemma ConfiguredChanges(c: Client, services: Services, backend: Backend)
    ensures Configured(c, services, backend) == c <==> ConfigStays(c, services, backend)
  {
    ConfiguredStays(c, services, backend);
  }

  /** What a run makes of a guest is the guest itself exactly when there was nothing to do, so
      a change is reported exactly when there was one. */
  lemma NothingToDoMeansNoChange(b: Box, p: Payload, backend: Backend)
    requires Boundable(b.boundary) && RuntimeReadable(b.runtime)
    ensures Provisioned(b, p, backend) == b <==> NothingToDo(b, p, backend)
  {
    PayloadedStays(b.software, p);
    ConfiguredChanges(b.client, GrantOf(b).services, backend);
    if NothingToDo(b, p, backend) { UnchangedWhenNothingToDo(b, p, backend); }
  }

  // --- What a finished run leaves ---

  // Some file is not there, or not the payload's, or not owned and protected as it should be.
  predicate FileDiffers(s: Software, p: Payload) {
    !(&& BrokerFile in s.files && s.files[BrokerFile] == Regular(p.broker, true)
      && RelayFile in s.files && s.files[RelayFile] == Regular(p.relay, true)
      && UnitFile in s.files && s.files[UnitFile] == Regular(p.unit, true))
  }

  // The agent's client configuration is not what the policy says.
  ghost predicate ConfigDiffers(c: Client, services: Services, backend: Backend) {
    || c.config != Document(services)
    || (backend == ClaudeCode && c.nativeServers)
    || (backend == Codex && multiset(Listing(c)) != multiset(CanonicalEntries(services)))
  }

  // The broker does not run, or not on this policy, or its clients are configured otherwise.
  ghost predicate Outdated(b: Box, backend: Backend)
    requires Boundable(b.boundary)
  {
    || !b.runtime.activity.IsActive? || b.runtime.process.None? || b.runtime.process.value.digest != GrantOf(b).digest
    || ConfigDiffers(b.client, GrantOf(b).services, backend)
  }

  // No service is without a private session.
  predicate LoggedIn(oauth: OAuth, services: seq<string>) {
    forall service <- services :: oauth.Sessions? && service in oauth.of && oauth.of[service].Private?
  }

  lemma {:induction false} NobodyIsPending(oauth: OAuth, services: seq<string>)
    requires OAuthSound(oauth, services)
    ensures Pending(oauth, services) == 0 <==> LoggedIn(oauth, services)
    decreases |services|
  {
    if services != [] {
      var front, last := services[..|services| - 1], services[|services| - 1];
      forall i | 0 <= i < |front|
        ensures !SessionOf(oauth, front[i]).SessionDrifted?
      {
        assert front[i] == services[i];
      }
      NobodyIsPending(oauth, front);
      assert services == front + [last] && last in services;
      assert SessionOf(oauth, last) != SessionDrifted;
    }
  }

  lemma DifferencesAreChanges(b: Box, p: Payload, backend: Backend)
    requires Boundable(b.boundary)
    ensures FileDiffers(b.software, p) <==> !AllInPlace(b.software, p)
    ensures ConfigDiffers(b.client, GrantOf(b).services, backend) <==> !ConfigStays(b.client, GrantOf(b).services, backend)
  {
  }

  /** With every login present, a run that finds a file different ends with the broker just
      started from the payload, under the unit that came with it, on the current policy; one
      that finds the client configuration different has just started it too; and otherwise it
      is started exactly when it was not running or on another policy. */
  lemma NewPayloadIsStarted(b: Box, p: Payload, backend: Backend, validName: string -> bool)
    requires Provisionable(b, backend, validName) && LoggedIn(b.oauth, GrantOf(b).services)
    ensures var r, grant := Provisioned(b, p, backend).runtime, GrantOf(b);
            && r.enabled == IsEnabled && r.activity == IsActive
            && r.starts == b.runtime.starts + (if FileDiffers(b.software, p) || Outdated(b, backend) then 1 else 0)
            && r.process == if FileDiffers(b.software, p) then Some(Process(p.broker, p.unit, grant.digest))
                            else if Outdated(b, backend) then Some(Process(p.broker, b.software.loadedUnit, grant.digest))
                            else b.runtime.process
  {
    NobodyIsPending(b.oauth, GrantOf(b).services);
    DifferencesAreChanges(b, p, backend);
    PayloadedIsInPlace(b.software, p);
    assert InPlace(Payloaded(b.software, p), p, BrokerFile);
  }

  /** Whatever it finds, it leaves the three files as the payload has them, root's and
      protected; the client configuration the policy's; the groups, the users, the home and the
      policy directory in order; and, with a login missing, the broker stopped and disabled,
      never started. */
  lemma RunLeavesEverythingInOrder(b: Box, p: Payload, backend: Backend, validName: string -> bool)
    requires Provisionable(b, backend, validName)
    ensures var c := Provisioned(b, p, backend);
            && !FileDiffers(c.software, p) && !ConfigDiffers(c.client, GrantOf(b).services, backend)
            && c.boundary.clientsGroup && c.boundary.brokerUser && c.boundary.brokerIsClient && c.boundary.agentIsClient
            && c.boundary.home == Home(true, true) && c.boundary.policyDir == b.boundary.policyDir && c.oauth == b.oauth
            && (FileDiffers(b.software, p) ==> c.software.loadedUnit == p.unit)
            && (!LoggedIn(b.oauth, GrantOf(b).services) ==>
                  c.runtime.enabled == IsDisabled && c.runtime.activity == IsInactive && c.runtime.starts == b.runtime.starts)
  {
    NobodyIsPending(b.oauth, GrantOf(b).services);
    PayloadedIsInPlace(b.software, p);
    ConfiguredStays(b.client, GrantOf(b).services, backend);
    var c := Provisioned(b, p, backend);
    assert InPlace(c.software, p, BrokerFile) && InPlace(c.software, p, RelayFile) && InPlace(c.software, p, UnitFile);
  }

  // The running broker is the installed one.
  predicate OnCurrentPayload(r: Runtime, p: Payload) {
    r.process.Some? && r.process.value.program == p.broker && r.process.value.unit == p.unit
  }

  /** A finished run ends on the current payload exactly when it restarts the broker, with
      systemd told of the unit, or found it there already. An earlier run that installed the
      files and stopped before it reloaded and restarted leaves a guest on which neither
      holds: the files match, so the old program keeps running. */
  lemma CurrentPayloadNeedsARestart(b: Box, p: Payload, backend: Backend, validName: string -> bool)
    requires Provisionable(b, backend, validName) && Pending(b.oauth, GrantOf(b).services) == 0
    ensures OnCurrentPayload(Provisioned(b, p, backend).runtime, p) <==>
            if FileDiffers(b.software, p) || Outdated(b, backend)
            then FileDiffers(b.software, p) || b.software.loadedUnit == p.unit
            else OnCurrentPayload(b.runtime, p)
  {
    DifferencesAreChanges(b, p, backend);
    PayloadedIsInPlace(b.software, p);
  }

  // What a run leaves that put the files in place and failed to reload systemd.
  function Interrupted(b: Box, p: Payload): Box {
    b.(boundary := Bounded(b.boundary), software := WithNewFiles(b.software, p))
  }

  /** A run interrupted there leaves a guest on which the next one works. */
  lemma InterruptedRunsAgain(b: Box, p: Payload, backend: Backend, validName: string -> bool)
    requires Provisionable(b, backend, validName)
    ensures Provisionable(Interrupted(b, p), backend, validName) && AllInPlace(Interrupted(b, p).software, p)
    ensures Pending(b.oauth, GrantOf(b).services) == 0 ==>
              (OnCurrentPayload(Provisioned(Interrupted(b, p), p, backend).runtime, p) <==>
               if Outdated(b, backend) then b.software.loadedUnit == p.unit else OnCurrentPayload(b.runtime, p))
  {
    PayloadedIsInPlace(b.software, p);
    assert AllInPlace(Interrupted(b, p).software, p) by {
      assert INSTALL_FILES[0] == BrokerFile && INSTALL_FILES[1] == RelayFile && INSTALL_FILES[2] == UnitFile;
    }
    if Pending(b.oauth, GrantOf(b).services) == 0 {
      DifferencesAreChanges(Interrupted(b, p), p, backend);
      CurrentPayloadNeedsARestart(Interrupted(b, p), p, backend, validName);
    }
  }

  // A healthy guest on some release, with no service to log in to.
  function HealthyBox(p: Payload): Box {
    Box(Boundary(true, true, true, true, true, Home(true, true), true, Dir(Some(Grant([], "d")))),
        Payloaded(Software(map[], ""), p), Client(Document([]), false, []), Sessions(map[]),
        Runtime(IsEnabled, IsActive, Some(Process(p.broker, p.unit, "d")), 0))
  }

  lemma HealthyIsInOrder(p: Payload, validName: string -> bool)
    ensures var b := HealthyBox(p);
            Provisionable(b, ClaudeCode, validName) && NothingToDo(b, p, ClaudeCode) && OnCurrentPayload(b.runtime, p)
  {
    PayloadedIsInPlace(Software(map[], ""), p);
    assert InPlace(HealthyBox(p).software, p, BrokerFile);
  }

  /** So it can happen: after the interrupted install of a release with another broker, and
      the next run, which finds nothing to do, the guest still runs the earlier program. */
  lemma InterruptedInstallKeepsTheOldBroker(p: Payload, earlier: Payload, validName: string -> bool)
    requires earlier.broker != p.broker
    ensures var b := Interrupted(HealthyBox(earlier), p);
            && !AllInPlace(HealthyBox(earlier).software, p) && NothingToDo(b, p, ClaudeCode)
            && OnCurrentPayload(Provisioned(b, p, ClaudeCode).runtime, earlier)
  {
    var b := HealthyBox(earlier);
    HealthyIsInOrder(earlier, validName);
    InterruptedRunsAgain(b, p, ClaudeCode, validName);
    PayloadedIsInPlace(Software(map[], ""), earlier);
    assert InPlace(b.software, earlier, BrokerFile);
    UnchangedWhenNothingToDo(Interrupted(b, p), p, ClaudeCode);
  }
}
