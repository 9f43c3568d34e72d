// What one run of a sync leaves, in terms of commits alone: what it saves, where both mains
// end, what conflicts, and exactly when it fails.

module SyncResults {
  import opened Options
  import opened GitHistory
  import opened BrainSync
  import opened SyncLaws

  predicate Unsaved(vault: Repo) { vault.dirty || vault.mergeHead.Some? }

  // What a run carries: the vault's main, or a commit of all that is unsaved.
  function Captured(vault: Repo, content: nat): Commit {
    if !Unsaved(vault) then vault.main
    else Commit([vault.main] + (if vault.mergeHead.Some? then [vault.mergeHead.value] else []), content)
  }

  predicate Diverged(a: Commit, b: Commit) { a !in Ancestors(b) && b !in Ancestors(a) }

  // A merge is in the way, or the contents do not merge.
  predicate Conflicts(r: Repo, other: Commit, resolve: Resolver) {
    other !in Ancestors(r.main) && (r.mergeHead.Some? || (Diverged(r.main, other) && resolve(r.main, other).None?))
  }

  // --- The snapshot ---

  predicate Starts(run: Run) {
    run.health == Initialized && run.faults !! {VerifyBootstrap, InspectVault, MakeHostStaging}
  }

  lemma BegunIsStarted(run: Run)
    ensures Begun(run) <==> Starts(run)
  {
    PlanWorks(INSPECT, run);
    assert INSPECT[0].0 == VerifyBootstrap && INSPECT[1].0 == InspectVault;
  }

  lemma SavedIsCaptured(vault: Repo, run: Run)
    ensures var snap := SnapshotOf(vault, run);
            && (snap.err.None? <==> (Unsaved(vault) ==> run.faults !! {StageVault, CommitVault}))
            && (snap.taken <==> Unsaved(vault) && run.faults !! {StageVault, CommitVault})
            && (snap.err.None? ==> snap.vault.main == Captured(vault, run.content) && !Unsaved(snap.vault))
            && (snap.taken ==> IsSnapshot(snap.vault.main, vault, run.content))
            && snap.vault.torio == vault.torio
  {
    PlanWorks(SNAPSHOT, run);
    assert SNAPSHOT[0].0 == StageVault && SNAPSHOT[1].0 == CommitVault;
    CommitAllCommits(vault, run.content);
    if Unsaved(vault) { SnapshotCommit(CommitAll(vault, run.content).main, vault, run.content); }
  }

  lemma SnapshotCommit(made: Commit, vault: Repo, content: nat)
    requires IsSnapshot(made, vault, content) && Unsaved(vault)
    ensures made == Captured(vault, content)
  {
    assert made.parents == Captured(vault, content).parents;
  }

  // What a report keeps of the report it continues.
  lemma OutboundKeepsTaken(hub: Option<Repo>, vault: Repo, report: SyncReport, run: Run)
    ensures OutboundOf(hub, vault, report, run).report.snapshotted == report.snapshotted
  {
  }

  lemma InboundKeepsTaken(hub: Repo, vault: Repo, report: SyncReport, run: Run)
    ensures InboundOf(hub, vault, report, run).report.snapshotted == report.snapshotted
  {
  }

  lemma InboundKeepsSaved(hub: Repo, vault: Repo, report: SyncReport, run: Run)
    ensures InboundOf(hub, vault, report, run).vault.dirty == vault.dirty
  {
    AbandonKeepsHistory(Fetch(vault, BundleMain(hub), HUB_REF), hub.main, run.resolveVault,
                        VaultMergeRefused in run.faults, AbortVaultMerge in run.faults);
  }

  // The run after its snapshot.
  lemma AfterTheSnapshot(hub: Option<Repo>, vault: Repo, run: Run)
    requires Starts(run) && SnapshotOf(vault, run).err.None?
    ensures var s, snap := SyncOf(hub, vault, run), SnapshotOf(vault, run);
            && KeepsHistory(snap.vault, s.vault) && s.vault.dirty == snap.vault.dirty && s.report.snapshotted == snap.taken
  {
    BegunIsStarted(run);
    var snap, out := SnapshotOf(vault, run), Sent(hub, vault, run);
    OutboundKeepsTaken(hub, snap.vault, EMPTY_REPORT.(snapshotted := snap.taken), run);
    if out.err.None? {
      InboundKeepsTaken(out.hub.value, snap.vault, out.report, run);
      InboundKeepsSaved(out.hub.value, snap.vault, out.report, run);
      InboundKeepsHistory(out.hub.value, snap.vault, out.report, run);
    }
  }

  /** What a vault has unsaved is saved before anything is carried: a run that gets so far
      makes one commit of it, on everything it was based on, says so, and never loses it;
      without an error or an outbound conflict the hub has it too. */
  lemma UnsavedWorkIsSaved(hub: Option<Repo>, vault: Repo, run: Run)
    ensures var s := SyncOf(hub, vault, run);
            && (s.report.snapshotted <==> Starts(run) && Unsaved(vault) && run.faults !! {StageVault, CommitVault})
            && (s.report.snapshotted ==>
                  exists made :: && IsSnapshot(made, vault, run.content) && made in Ancestors(s.vault.main) && !s.vault.dirty
                                 && (s.err.None? && !s.report.conflictOutbound ==> made in Ancestors(s.hub.value.main)))
  {
    BegunIsStarted(run);
    SavedIsCaptured(vault, run);
    var s, snap := SyncOf(hub, vault, run), SnapshotOf(vault, run);
    if Starts(run) && snap.err.None? {
      AfterTheSnapshot(hub, vault, run);
      if snap.taken {
        if s.err.None? { InboundNeverConflictsAlone(hub, vault, run); }
        assert IsSnapshot(snap.vault.main, vault, run.content);
      }
    }
  }

  // --- Merging ---

  lemma MergeExactly(r: Repo, target: Commit, resolve: Resolver, refused: bool, abortFails: bool)
    requires target !in Ancestors(r.main)
    ensures var m := MergeOrAbandon(r, target, resolve, refused, abortFails);
            && (m.Merged? <==> !refused && !Conflicts(r, target, resolve))
            && (m.Stopped? <==> !abortFails && if refused then r.mergeHead.Some? else Conflicts(r, target, resolve))
            && (m.Merged? ==> m.repo.main == Joined(r.main, target, resolve))
            && (!m.Failed? ==> m.repo.mergeHead.None?) && (m.Stopped? ==> m.repo.main == r.main)
            && m.repo.torio == r.torio
  {
  }

  // Whether the commands of a merge let it come to an end.
  predicate MergeEnds(r: Repo, target: Commit, resolve: Resolver, runs: bool, refused: bool, abortFails: bool) {
    target !in Ancestors(r.main) ==>
      && runs && (refused ==> r.mergeHead.Some?)
      && (refused || Conflicts(r, target, resolve) ==> !abortFails)
  }

  predicate HubMergeEnds(hub: Repo, mine: Commit, run: Run) {
    MergeEnds(hub, mine, run.resolveHub, RunHubMerge !in run.faults, HubMergeRefused in run.faults, AbortHubMerge in run.faults)
  }

  predicate VaultMergeEnds(vault: Repo, theirs: Commit, run: Run) {
    MergeEnds(vault, theirs, run.resolveVault, RunVaultMerge !in run.faults, VaultMergeRefused in run.faults,
              AbortVaultMerge in run.faults)
  }

  // --- Each half ---

  lemma ReconcileExactly(hub: Repo, vault: Repo, report: SyncReport, run: Run)
    requires !report.conflictOutbound
    ensures var o := ReconcileHub(hub, vault, report, run);
            && (o.err.None? <==> run.faults !! {VerifyCarried, FetchCarried, CountCarried} && HubMergeEnds(hub, vault.main, run))
            && (o.err.None? ==>
                  && (o.report.conflictOutbound <==> Conflicts(hub, vault.main, run.resolveHub))
                  && o.hub.value.main == (if o.report.conflictOutbound then hub.main else Joined(hub.main, vault.main, run.resolveHub))
                  && o.hub.value.torio == hub.torio[run.name := vault.main])
  {
    PlanWorks(READ_CARRIED, run);
    assert READ_CARRIED[0].0 == VerifyCarried && READ_CARRIED[1].0 == FetchCarried;
    CountRangeIsZeroExactlyWhenReachable(hub.main, vault.main);
    var fetched := Fetch(hub, BundleMain(vault), run.name);
    if vault.main !in Ancestors(hub.main) {
      MergeExactly(fetched, vault.main, run.resolveHub, HubMergeRefused in run.faults, AbortHubMerge in run.faults);
    }
  }

  predicate CarriesOut(run: Run) {
    run.faults !! {ReadSessionUser, PrepareStaging, BundleVault, MakeFromGuest, CarryOut, FindCarried}
  }

  predicate CarriesIn(run: Run) {
    run.faults !! {MakeToGuest, BundleHub, CarryIn, RestoreStaging, VerifyCarriedHub, FetchCarriedHub, CountCarriedHub}
  }

  lemma CarryingOut(run: Run)
    ensures FirstFailure(CARRY_OUT, run).None? <==> CarriesOut(run)
    ensures FirstFailure(CREATE_HUB, run).None? <==> run.faults !! {MakeHubDirectory, CloneHub}
  {
    PlanWorks(CARRY_OUT, run);
    PlanWorks(CREATE_HUB, run);
    assert CARRY_OUT[0].0 == ReadSessionUser && CARRY_OUT[1].0 == PrepareStaging && CARRY_OUT[2].0 == BundleVault;
    assert CARRY_OUT[3].0 == MakeFromGuest && CARRY_OUT[4].0 == CarryOut && CARRY_OUT[5].0 == FindCarried;
    assert CREATE_HUB[0].0 == MakeHubDirectory && CREATE_HUB[1].0 == CloneHub;
  }

  lemma CarryingIn(run: Run)
    ensures FirstFailure(CARRY_IN, run).None? && CountCarriedHub !in run.faults <==> CarriesIn(run)
  {
    PlanWorks(CARRY_IN, run);
    assert CARRY_IN[0].0 == MakeToGuest && CARRY_IN[1].0 == BundleHub && CARRY_IN[2].0 == CarryIn;
    assert CARRY_IN[3].0 == RestoreStaging && CARRY_IN[4].0 == VerifyCarriedHub && CARRY_IN[5].0 == FetchCarriedHub;
  }

  // Whether the outbound half works, and where the hub's main is then.
  predicate Sends(hub: Option<Repo>, mine: Commit, run: Run) {
    && CarriesOut(run)
    && match hub
       case None => run.faults !! {MakeHubDirectory, CloneHub, DetachHub}
       case Some(there) => run.faults !! {VerifyCarried, FetchCarried, CountCarried} && HubMergeEnds(there, mine, run)
  }

  predicate ConflictsOut(hub: Option<Repo>, mine: Commit, run: Run) {
    hub.Some? && Conflicts(hub.value, mine, run.resolveHub)
  }

  function HubMain(hub: Option<Repo>, mine: Commit, run: Run): Commit {
    match hub
    case None => mine
    case Some(there) => if ConflictsOut(hub, mine, run) then there.main else Joined(there.main, mine, run.resolveHub)
  }

  lemma OutboundExactly(hub: Option<Repo>, vault: Repo, report: SyncReport, run: Run)
    requires !report.conflictOutbound && !report.hubCreated
    ensures var o := OutboundOf(hub, vault, report, run);
            && (o.err.None? <==> Sends(hub, vault.main, run))
            && (o.err.None? ==>
                  && (o.report.conflictOutbound <==> ConflictsOut(hub, vault.main, run))
                  && o.hub.value.main == HubMain(hub, vault.main, run) && (o.report.hubCreated <==> hub.None?)
                  && o.hub.value.torio == (if hub.None? then map[] else hub.value.torio[run.name := vault.main]))
  {
    CarryingOut(run);
    if hub.Some? {
      ReconcileExactly(hub.value, vault, report.(hubCreated := false), run);
      if OutboundOf(hub, vault, report, run).err.None? { OutboundReports(hub.value, vault, report, run); }
    }
  }

  lemma OutboundReports(hub: Repo, vault: Repo, report: SyncReport, run: Run)
    requires !report.conflictOutbound && !report.hubCreated && OutboundOf(Some(hub), vault, report, run).err.None?
    ensures !OutboundOf(Some(hub), vault, report, run).report.hubCreated
  {
    ReconcileOutcome(hub, vault, report.(hubCreated := false), run);
  }

  lemma InboundExactly(hub: Repo, vault: Repo, report: SyncReport, run: Run)
    requires !report.conflictInbound && !Unsaved(vault)
    ensures var i := InboundOf(hub, vault, report, run);
            && (i.err.None? <==> CarriesIn(run) && VaultMergeEnds(vault, hub.main, run))
            && (i.err.None? ==>
                  && (i.report.conflictInbound <==> Conflicts(vault, hub.main, run.resolveVault))
                  && i.vault.main == Joined(vault.main, hub.main, run.resolveVault)
                  && i.vault.torio == vault.torio[HUB_REF := hub.main] && !Unsaved(i.vault))
  {
    CarryingIn(run);
    CountRangeIsZeroExactlyWhenReachable(vault.main, hub.main);
    var fetched := Fetch(vault, BundleMain(hub), HUB_REF);
    if hub.main !in Ancestors(vault.main) {
      MergeExactly(fetched, hub.main, run.resolveVault, VaultMergeRefused in run.faults, AbortVaultMerge in run.faults);
      InboundKeepsSaved(hub, vault, report, run);
    }
  }

  // --- The run ---

  // The vault once it is saved.
  function Saved(vault: Repo, content: nat): Repo {
    vault.(main := Captured(vault, content), mergeHead := None, dirty := false)
  }

  predicate Works(hub: Option<Repo>, vault: Repo, run: Run) {
    var mine := Captured(vault, run.content);
    && Starts(run) && (Unsaved(vault) ==> run.faults !! {StageVault, CommitVault})
    && Sends(hub, mine, run) && CarriesIn(run)
    && VaultMergeEnds(Saved(vault, run.content), HubMain(hub, mine, run), run)
  }

  lemma RunInHalves(hub: Option<Repo>, vault: Repo, run: Run)
    ensures var s, snap, out := SyncOf(hub, vault, run), SnapshotOf(vault, run), Sent(hub, vault, run);
            && (s.err.None? <==> Begun(run) && snap.err.None? && out.err.None?
                                 && InboundOf(out.hub.value, snap.vault, out.report, run).err.None?)
            && (s.err.None? ==> s.hub == out.hub
                                && Inbound(s.vault, s.report, None) == InboundOf(out.hub.value, snap.vault, out.report, run))
  {
  }

  lemma SentKeepsInbound(hub: Option<Repo>, vault: Repo, report: SyncReport, run: Run)
    ensures OutboundOf(hub, vault, report, run).report.conflictInbound == report.conflictInbound
  {
  }

  lemma InboundKeepsOutbound(hub: Repo, vault: Repo, report: SyncReport, run: Run)
    ensures var i := InboundOf(hub, vault, report, run).report;
            i.conflictOutbound == report.conflictOutbound && i.hubCreated == report.hubCreated
  {
  }

  lemma SameMerge(a: Repo, b: Repo, theirs: Commit, run: Run)
    requires a.main == b.main && a.mergeHead == b.mergeHead
    ensures VaultMergeEnds(a, theirs, run) == VaultMergeEnds(b, theirs, run)
    ensures Conflicts(a, theirs, run.resolveVault) == Conflicts(b, theirs, run.resolveVault)
  {
  }

  /** A run works exactly when no command fails that it comes to; and then its two mains end
      where merging what it carried, and merging that back, puts them; the hub keeps what was
      carried under the box's name; and both conflicts are reported exactly when they are. */
  lemma SyncExactly(hub: Option<Repo>, vault: Repo, run: Run)
    ensures var s := SyncOf(hub, vault, run);
            var mine := Captured(vault, run.content);
            var theirs := HubMain(hub, mine, run);
            && (s.err.None? <==> Works(hub, vault, run))
            && (s.err.None? ==>
                  && s.hub.value.main == theirs && s.vault.main == Joined(mine, theirs, run.resolveVault)
                  && (s.report.conflictOutbound <==> ConflictsOut(hub, mine, run))
                  && (s.report.conflictInbound <==> Conflicts(Saved(vault, run.content), theirs, run.resolveVault))
                  && (s.report.hubCreated <==> hub.None?) && !Unsaved(s.vault)
                  && s.hub.value.torio == (if hub.None? then map[] else hub.value.torio[run.name := mine])
                  && s.vault.torio == vault.torio[HUB_REF := theirs])
  {
    BegunIsStarted(run);
    SavedIsCaptured(vault, run);
    RunInHalves(hub, vault, run);
    var snap, out := SnapshotOf(vault, run), Sent(hub, vault, run);
    var report := EMPTY_REPORT.(snapshotted := snap.taken);
    if Starts(run) && snap.err.None? {
      OutboundExactly(hub, snap.vault, report, run);
      SentKeepsInbound(hub, snap.vault, report, run);
      if out.err.None? {
        InboundExactly(out.hub.value, snap.vault, out.report, run);
        InboundKeepsOutbound(out.hub.value, snap.vault, out.report, run);
        SameMerge(snap.vault, Saved(vault, run.content), out.hub.value.main, run);
      }
    }
  }

  /** A box that is not set up, or not as it should be, is refused by name, and nothing is
      touched on either side. */
  lemma OtherBoxesAreRefused(hub: Option<Repo>, vault: Repo, run: Run)
    requires run.health != Initialized && run.faults !! {VerifyBootstrap, InspectVault}
    ensures var s := SyncOf(hub, vault, run);
            && s.err == Some(if run.health == Uninitialized then Precondition else Conflict)
            && s.hub == hub && s.vault == vault && s.report == EMPTY_REPORT
  {
    PlanWorks(INSPECT, run);
  }

  /** A commit in a vault that stands where the hub does shows as one that the hub lacks, and
      one the hub makes on the vault's main as one that the vault lacks. */
  lemma NewCommitsShow(vault: Repo, content: nat)
    ensures var made := Commit([vault.main], content);
            && HubDistance(vault.(main := made, torio := vault.torio[HUB_REF := vault.main])) == Some((1, 0))
            && HubDistance(vault.(torio := vault.torio[HUB_REF := made])) == Some((0, 1))
  {
    var made := Commit([vault.main], content);
    assert vault.main in made.parents by { assert made.parents[0] == vault.main; }
    ChildIsNew(made, vault.main);
    AncestorsOfChild(vault.main, content);
    assert Range(vault.main, made) == {made};
    CountRangeIsZeroExactlyWhenReachable(made, vault.main);
  }
}
