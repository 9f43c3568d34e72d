// torio brain sync: one box's vault and the hub on the host, reconciled both ways.

module BrainSync {
  import opened Options
  import opened GitHistory

  datatype Health = Initialized | Uninitialized | Drift

  datatype Kind = Precondition | Conflict | GitFailure | GuestCommand | Transport

  // Every command of a run that can fail. A failing command changes nothing.
  datatype SyncStep =
    | VerifyBootstrap | InspectVault | MakeHostStaging
    | StageVault | CommitVault
    | ReadSessionUser | PrepareStaging | BundleVault | MakeFromGuest | CarryOut | FindCarried
    | MakeHubDirectory | CloneHub | DetachHub
    | VerifyCarried | FetchCarried | CountCarried | RunHubMerge | HubMergeRefused | AbortHubMerge
    | MakeToGuest | BundleHub | CarryIn | RestoreStaging | VerifyCarriedHub | FetchCarriedHub
    | CountCarriedHub | RunVaultMerge | VaultMergeRefused | AbortVaultMerge

  // What a run meets: the box it is bound to, the state its vault is found in,
  // which commands fail, what a new commit holds, and how content merges go.
  datatype Run = Run(name: string, health: Health, faults: set<SyncStep>, content: nat,
                     resolveHub: Resolver, resolveVault: Resolver)

  datatype SyncReport = SyncReport(hubCreated: bool, snapshotted: bool, toHub: nat, toGuest: nat,
                                   conflictOutbound: bool, conflictInbound: bool, notes: seq<string>)
  {
    predicate Conflicted() { conflictOutbound || conflictInbound }
  }

  const EMPTY_REPORT := SyncReport(false, false, 0, 0, false, false, [])

  // The ref a guest keeps the hub's history under.
  const HUB_REF := "hub"

  function Attempt(step: SyncStep, kind: Kind, run: Run): Option<Kind> {
    if step in run.faults then Some(kind) else None
  }

  /** The first command of a plan that fails, if any does. */
  function FirstFailure(plan: seq<(SyncStep, Kind)>, run: Run): Option<Kind> {
    if plan == [] then None
    else if plan[0].0 in run.faults then Some(plan[0].1)
    else FirstFailure(plan[1..], run)
  }

  lemma {:induction false} PlanWorks(plan: seq<(SyncStep, Kind)>, run: Run)
    ensures FirstFailure(plan, run).None? <==> forall i :: 0 <= i < |plan| ==> plan[i].0 !in run.faults
    decreases |plan|
  {
    if plan != [] && plan[0].0 !in run.faults {
      PlanWorks(plan[1..], run);
      if FirstFailure(plan[1..], run).None? {
        assert forall i :: 0 < i < |plan| ==> plan[i] == plan[1..][i - 1];
      } else {
        var i :| 0 <= i < |plan[1..]| && plan[1..][i].0 in run.faults;
        assert plan[i + 1].0 in run.faults;
      }
    }
  }

  const CARRY_OUT: seq<(SyncStep, Kind)> :=
    [(ReadSessionUser, GuestCommand), (PrepareStaging, GuestCommand), (BundleVault, GitFailure),
     (MakeFromGuest, Precondition), (CarryOut, Transport), (FindCarried, Transport)]

  const CARRY_IN: seq<(SyncStep, Kind)> :=
    [(MakeToGuest, Precondition), (BundleHub, GitFailure), (CarryIn, Transport),
     (RestoreStaging, GuestCommand), (VerifyCarriedHub, GitFailure), (FetchCarriedHub, GitFailure)]

  predicate Dirty(vault: Repo) { vault.dirty || vault.mergeHead.Some? }

  const SNAPSHOT: seq<(SyncStep, Kind)> := [(StageVault, GitFailure), (CommitVault, GitFailure)]

  datatype Snapshot = Snapshot(vault: Repo, taken: bool, err: Option<Kind>)

  function SnapshotOf(vault: Repo, run: Run): Snapshot {
    if !Dirty(vault) then Snapshot(vault, false, None)
    else
      var err := FirstFailure(SNAPSHOT, run);
      if err.Some? then Snapshot(vault, false, err) else Snapshot(CommitAll(vault, run.content), true, None)
  }

  datatype MergeOutcome = Merged(repo: Repo) | Stopped(repo: Repo) | Failed(repo: Repo, kind: Kind)

  // A merge that is made, or abandoned and reported, or neither.
  function MergeOrAbandon(r: Repo, target: Commit, resolve: Resolver, refused: bool, abortFails: bool): MergeOutcome {
    var m := if refused then MergeRun(false, r) else Merge(r, target, resolve);
    if m.succeeded then Merged(m.repo)
    else match AbortMerge(m.repo)
      case None => Failed(m.repo, GitFailure)
      case Some(restored) => if abortFails then Failed(m.repo, GitFailure) else Stopped(restored)
  }

  datatype Outbound = Outbound(hub: Option<Repo>, report: SyncReport, err: Option<Kind>)

  const CREATE_HUB: seq<(SyncStep, Kind)> := [(MakeHubDirectory, Precondition), (CloneHub, GitFailure)]

  datatype Ensured = Ensured(hub: Option<Repo>, created: bool, err: Option<Kind>)

  // The hub is made once, from the bundle that arrived, and then detached from it.
  function EnsureHub(hub: Option<Repo>, carried: Bundle, run: Run): Ensured {
    if hub.Some? then Ensured(hub, false, None)
    else
      var err := FirstFailure(CREATE_HUB, run);
      if err.Some? then Ensured(None, false, err)
      else if DetachHub in run.faults then Ensured(Some(Clone(carried)), false, Some(GitFailure))
      else Ensured(Some(Clone(carried).(hasRemote := false)), true, None)
  }

  const READ_CARRIED: seq<(SyncStep, Kind)> := [(VerifyCarried, GitFailure), (FetchCarried, GitFailure)]

  function HubMergeOf(hub: Repo, target: Commit, run: Run): MergeOutcome {
    if RunHubMerge in run.faults then Failed(hub, GitFailure)
    else MergeOrAbandon(hub, target, run.resolveHub, HubMergeRefused in run.faults, AbortHubMerge in run.faults)
  }

  function VaultMergeOf(vault: Repo, target: Commit, run: Run): MergeOutcome {
    if RunVaultMerge in run.faults then Failed(vault, Transport)
    else MergeOrAbandon(vault, target, run.resolveVault, VaultMergeRefused in run.faults, AbortVaultMerge in run.faults)
  }

  function OutboundOf(hub: Option<Repo>, vault: Repo, report: SyncReport, run: Run): (o: Outbound)
    ensures hub.Some? || o.err.None? ==> o.hub.Some?
  {
    var err := FirstFailure(CARRY_OUT, run);
    if err.Some? then Outbound(hub, report, err)
    else
      var made := EnsureHub(hub, BundleMain(vault), run);
      if made.err.Some? then Outbound(made.hub, report, made.err)
      else
        var report' := report.(hubCreated := made.created);
        if made.created then Outbound(made.hub, report', None)
        else ReconcileHub(made.hub.value, vault, report', run)
  }

  // Outbound against a hub that was already there.
  function ReconcileHub(hub: Repo, vault: Repo, report: SyncReport, run: Run): (o: Outbound)
    ensures o.hub.Some?
  {
    var err := FirstFailure(READ_CARRIED, run);
    if err.Some? then Outbound(Some(hub), report, err)
    else
      var fetched := Fetch(hub, BundleMain(vault), run.name);
      var replica := fetched.torio[run.name];
      var ahead := CountRange(fetched.main, replica);
      if CountCarried in run.faults then Outbound(Some(fetched), report, Some(GitFailure))
      else if ahead == 0 then Outbound(Some(fetched), report, None)
      else match HubMergeOf(fetched, replica, run)
        case Merged(r) => Outbound(Some(r), report.(toHub := ahead), None)
        case Stopped(r) => Outbound(Some(r), report.(conflictOutbound := true, notes := report.notes + ["conflict_to_hub"]), None)
        case Failed(r, kind) => Outbound(Some(r), report, Some(kind))
  }

  datatype Inbound = Inbound(vault: Repo, report: SyncReport, err: Option<Kind>)

  function InboundOf(hub: Repo, vault: Repo, report: SyncReport, run: Run): Inbound {
    var err := FirstFailure(CARRY_IN, run);
    if err.Some? then Inbound(vault, report, err)
    else
      var fetched := Fetch(vault, BundleMain(hub), HUB_REF);
      var carried := fetched.torio[HUB_REF];
      var behind := CountRange(fetched.main, carried);
      if CountCarriedHub in run.faults then Inbound(fetched, report, Some(GitFailure))
      else if behind == 0 then Inbound(fetched, report, None)
      else InboundAfter(VaultMergeOf(fetched, carried, run), report, behind)
  }

  function InboundAfter(merge: MergeOutcome, report: SyncReport, behind: nat): Inbound {
    match merge
    case Merged(r) => Inbound(r, report.(toGuest := behind), None)
    case Stopped(r) => Inbound(r, report.(conflictInbound := true, notes := report.notes + ["conflict_to_guest"]), None)
    case Failed(r, kind) => Inbound(r, report, Some(kind))
  }

  datatype Synced = Synced(hub: Option<Repo>, vault: Repo, report: SyncReport, err: Option<Kind>)

  const INSPECT: seq<(SyncStep, Kind)> := [(VerifyBootstrap, Precondition), (InspectVault, GuestCommand)]

  // What one whole run leaves behind and reports.
  function SyncOf(hub: Option<Repo>, vault: Repo, run: Run): (s: Synced)
    ensures hub.Some? || s.err.None? ==> s.hub.Some?
  {
    var early := FirstFailure(INSPECT, run);
    if early.Some? then Synced(hub, vault, EMPTY_REPORT, early)
    else if run.health == Uninitialized then Synced(hub, vault, EMPTY_REPORT, Some(Precondition))
    else if run.health == Drift then Synced(hub, vault, EMPTY_REPORT, Some(Conflict))
    else if MakeHostStaging in run.faults then Synced(hub, vault, EMPTY_REPORT, Some(Precondition))
    else
      var snap := SnapshotOf(vault, run);
      if snap.err.Some? then Synced(hub, snap.vault, EMPTY_REPORT, snap.err)
      else
        var out := OutboundOf(hub, snap.vault, EMPTY_REPORT.(snapshotted := snap.taken), run);
        if out.err.Some? then Synced(out.hub, snap.vault, out.report, out.err)
        else
          var inb := InboundOf(out.hub.value, snap.vault, out.report, run);
          Synced(out.hub, inb.vault, inb.report, inb.err)
  }

  // Commands run one after another until one fails.
  method RunPlan(plan: seq<(SyncStep, Kind)>, run: Run) returns (err: Option<Kind>)
    ensures err == FirstFailure(plan, run)
  {
    var rest := plan;
    err := None;
    while rest != []
      invariant err == None
      invariant FirstFailure(rest, run) == FirstFailure(plan, run)
      decreases |rest|
    {
      err := Attempt(rest[0].0, rest[0].1, run);
      if err.Some? { return; }
      rest := rest[1..];
    }
  }

  // The manager, the two repositories it commands, and the report it fills in.
  class Manager {
    var hub: Option<Repo>
    var vault: Repo
    var report: SyncReport

    constructor (hub: Option<Repo>, vault: Repo)
      ensures this.hub == hub && this.vault == vault
    {
      this.hub, this.vault, this.report := hub, vault, EMPTY_REPORT;
    }

    method SnapshotGuestVault(run: Run) returns (taken: bool, err: Option<Kind>)
      modifies this`vault
      ensures Snapshot(vault, taken, err) == SnapshotOf(old(vault), run)
      // A snapshot is one new commit of everything unsaved, taken exactly when there is
      // something unsaved and neither command fails.
      ensures taken <==> (old(vault).dirty || old(vault).mergeHead.Some?) && run.faults !! {StageVault, CommitVault}
      ensures taken ==> IsSnapshot(vault.main, old(vault), run.content) && vault.torio == old(vault).torio
      ensures !taken ==> vault == old(vault)
      ensures err.None? <==> !vault.dirty && vault.mergeHead.None?
    {
      CommitAllCommits(vault, run.content);
      PlanWorks(SNAPSHOT, run);
      assert SNAPSHOT[0].0 == StageVault && SNAPSHOT[1].0 == CommitVault;
      if !Dirty(vault) { return false, None; }
      err := RunPlan(SNAPSHOT, run);
      if err.Some? { return false, err; }
      vault := CommitAll(vault, run.content);
      return true, None;
    }

    method EnsureHubVault(carried: Bundle, run: Run) returns (created: bool, err: Option<Kind>)
      modifies this`hub
      ensures Ensured(hub, created, err) == EnsureHub(old(hub), carried, run)
    {
      if hub.Some? { return false, None; }
      err := RunPlan(CREATE_HUB, run);
      if err.Some? { return false, err; }
      hub := Some(Clone(carried));
      err := Attempt(DetachHub, GitFailure, run);
      if err.Some? { return false, err; }
      hub := Some(hub.value.(hasRemote := false));
      return true, None;
    }

    method MergeHost(target: Commit, run: Run) returns (merged: bool, err: Option<Kind>)
      requires hub.Some?
      modifies this`hub
      ensures hub.Some?
      ensures HubMergeOf(old(hub).value, target, run)
           == if err.Some? then Failed(hub.value, err.value) else if merged then Merged(hub.value) else Stopped(hub.value)
    {
      if RunHubMerge in run.faults { return false, Some(GitFailure); }
      if HubMergeRefused !in run.faults {
        var attempt := Merge(hub.value, target, run.resolveHub);
        hub := Some(attempt.repo);
        if attempt.succeeded { return true, None; }
      }
      var restored := AbortMerge(hub.value);
      if restored.None? || AbortHubMerge in run.faults { return false, Some(GitFailure); }
      hub := restored;
      return false, None;
    }

    method MergeGuest(target: Commit, run: Run) returns (merged: bool, err: Option<Kind>)
      modifies this`vault
      ensures VaultMergeOf(old(vault), target, run)
           == if err.Some? then Failed(vault, err.value) else if merged then Merged(vault) else Stopped(vault)
    {
      if RunVaultMerge in run.faults { return false, Some(Transport); }
      if VaultMergeRefused !in run.faults {
        var attempt := Merge(vault, target, run.resolveVault);
        vault := attempt.repo;
        if attempt.succeeded { return true, None; }
      }
      var restored := AbortMerge(vault);
      if restored.None? || AbortVaultMerge in run.faults { return false, Some(GitFailure); }
      vault := restored.value;
      return false, None;
    }

    method SyncOutbound(run: Run) returns (err: Option<Kind>)
      modifies this`hub, this`report
      ensures Outbound(hub, report, err) == OutboundOf(old(hub), vault, old(report), run)
    {
      err := RunPlan(CARRY_OUT, run);
      if err.Some? { return; }
      var carried := BundleMain(vault);
      var created;
      created, err := EnsureHubVault(carried, run);
      if err.Some? { return; }
      report := report.(hubCreated := created);
      if created { return; }
      err := RunPlan(READ_CARRIED, run);
      if err.Some? { return; }
      hub := Some(Fetch(hub.value, carried, run.name));
      err := Attempt(CountCarried, GitFailure, run);
      if err.Some? { return; }
      var replica := hub.value.torio[run.name];
      var ahead := CountRange(hub.value.main, replica);
      if ahead == 0 { return; }
      var merged;
      merged, err := MergeHost(replica, run);
      if err.Some? { return; }
      if !merged {
        report := report.(conflictOutbound := true, notes := report.notes + ["conflict_to_hub"]);
        return;
      }
      report := report.(toHub := ahead);
    }

    method SyncInbound(run: Run) returns (err: Option<Kind>)
      requires hub.Some?
      modifies this`vault, this`report
      ensures Inbound(vault, report, err) == InboundOf(hub.value, old(vault), old(report), run)
    {
      err := RunPlan(CARRY_IN, run);
      if err.Some? { return; }
      vault := Fetch(vault, BundleMain(hub.value), HUB_REF);
      err := Attempt(CountCarriedHub, GitFailure, run);
      if err.Some? { return; }
      var carried := vault.torio[HUB_REF];
      var behind := CountRange(vault.main, carried);
      if behind == 0 { return; }
      var merged;
      merged, err := MergeGuest(carried, run);
      if err.Some? { return; }
      if !merged {
        report := report.(conflictInbound := true, notes := report.notes + ["conflict_to_guest"]);
        return;
      }
      report := report.(toGuest := behind);
    }

    method Sync(run: Run) returns (err: Option<Kind>)
      modifies this
      ensures Synced(hub, vault, report, err) == SyncOf(old(hub), old(vault), run)
    {
      report := EMPTY_REPORT;
      err := RunPlan(INSPECT, run);
      if err.Some? { return; }
      match run.health {
        case Initialized =>
        case Uninitialized => return Some(Precondition);
        case Drift => return Some(Conflict);
      }
      err := Attempt(MakeHostStaging, Precondition, run);
      if err.Some? { return; }
      var taken;
      taken, err := SnapshotGuestVault(run);
      if err.Some? { return; }
      report := report.(snapshotted := taken);
      err := SyncOutbound(run);
      if err.Some? { return; }
      err := SyncInbound(run);
    }

    // How far the vault stands from the last hub history it saw: commits the hub
    // lacked, then commits the vault lacks. None before the first reconciliation.
    function DescribeHubDistance(): Option<(nat, nat)>
      reads this
    {
      HubDistance(vault)
    }
  }

  function HubDistance(vault: Repo): Option<(nat, nat)> {
    if HUB_REF !in vault.torio then None
    else Some((CountRange(vault.torio[HUB_REF], vault.main), CountRange(vault.main, vault.torio[HUB_REF])))
  }
}
