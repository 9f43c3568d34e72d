// What one reconciliation promises, on every vault, every hub and every failure.

module SyncLaws {
  import opened Options
  import opened GitHistory
  import opened BrainSync

  // A vault's last view of the hub is history the hub still has.
  ghost predicate HubRefBehindHub(hub: Option<Repo>, vault: Repo) {
    HUB_REF in vault.torio ==> hub.Some? && vault.torio[HUB_REF] in Ancestors(hub.value.main)
  }

  ghost predicate BothConnected(hub: Option<Repo>, vault: Repo) {
    (hub.Some? ==> Connected(hub.value)) && Connected(vault)
  }

  lemma AbandonKeepsHistory(r: Repo, target: Commit, resolve: Resolver, refused: bool, abortFails: bool)
    ensures var m := MergeOrAbandon(r, target, resolve, refused, abortFails);
            && KeepsHistory(r, m.repo)
            && m.repo.torio == r.torio && m.repo.hasRemote == r.hasRemote && m.repo.dirty == r.dirty
            && (m.Merged? ==> target in Ancestors(m.repo.main) && m.repo.mergeHead == None)
            && (m.Stopped? ==> m.repo == r.(mergeHead := None))
  {
    MergeJoinsBothSides(r, target, resolve);
  }

  lemma AbandonKeepsConnection(r: Repo, name: string, resolve: Resolver, refused: bool, abortFails: bool)
    requires Connected(r) && name in r.torio
    ensures Connected(MergeOrAbandon(r, r.torio[name], resolve, refused, abortFails).repo)
  {
    MergeKeepsConnection(r, r.torio[name], resolve);
  }

  lemma HubMergeKeepsHistory(hub: Repo, target: Commit, run: Run)
    ensures var m := HubMergeOf(hub, target, run);
            && KeepsHistory(hub, m.repo) && m.repo.hasRemote == hub.hasRemote
            && (m.Merged? ==> target in Ancestors(m.repo.main))
            && (m.Stopped? ==> m.repo == hub.(mergeHead := None))
  {
    AbandonKeepsHistory(hub, target, run.resolveHub, HubMergeRefused in run.faults, AbortHubMerge in run.faults);
  }

  lemma ReconcileKeepsHistory(hub: Repo, vault: Repo, report: SyncReport, run: Run)
    ensures var after := ReconcileHub(hub, vault, report, run).hub.value;
            KeepsHistory(hub, after) && after.hasRemote == hub.hasRemote
  {
    HubMergeKeepsHistory(Fetch(hub, BundleMain(vault), run.name), vault.main, run);
  }

  lemma OutboundKeepsHistory(hub: Repo, vault: Repo, report: SyncReport, run: Run)
    ensures var after := OutboundOf(Some(hub), vault, report, run).hub.value;
            KeepsHistory(hub, after) && after.hasRemote == hub.hasRemote
  {
    ReconcileKeepsHistory(hub, vault, report.(hubCreated := false), run);
  }

  lemma HubMergeKeepsConnection(hub: Repo, name: string, run: Run)
    requires Connected(hub) && name in hub.torio
    ensures Connected(HubMergeOf(hub, hub.torio[name], run).repo)
  {
    AbandonKeepsConnection(hub, name, run.resolveHub, HubMergeRefused in run.faults, AbortHubMerge in run.faults);
  }

  lemma ReconcileKeepsConnection(hub: Repo, vault: Repo, report: SyncReport, run: Run)
    requires Connected(hub)
    ensures Connected(ReconcileHub(hub, vault, report, run).hub.value)
  {
    FetchIsConnected(hub, BundleMain(vault), run.name);
    HubMergeKeepsConnection(Fetch(hub, BundleMain(vault), run.name), run.name, run);
  }

  lemma OutboundKeepsConnection(hub: Option<Repo>, vault: Repo, report: SyncReport, run: Run)
    requires hub.Some? ==> Connected(hub.value)
    ensures var o := OutboundOf(hub, vault, report, run);
            o.hub.Some? ==> Connected(o.hub.value)
  {
    if hub.Some? {
      ReconcileKeepsConnection(hub.value, vault, report.(hubCreated := false), run);
    }
  }

  lemma VaultMergeKeepsHistory(vault: Repo, target: Commit, run: Run)
    ensures var m := VaultMergeOf(vault, target, run);
            && KeepsHistory(vault, m.repo) && m.repo.hasRemote == vault.hasRemote && m.repo.torio == vault.torio
  {
    AbandonKeepsHistory(vault, target, run.resolveVault, VaultMergeRefused in run.faults, AbortVaultMerge in run.faults);
  }

  lemma InboundKeepsHistory(hub: Repo, vault: Repo, report: SyncReport, run: Run)
    ensures var after := InboundOf(hub, vault, report, run).vault;
            && KeepsHistory(vault, after) && after.hasRemote == vault.hasRemote
            && (after.torio == vault.torio || after.torio == vault.torio[HUB_REF := hub.main])
  {
    VaultMergeKeepsHistory(Fetch(vault, BundleMain(hub), HUB_REF), hub.main, run);
  }

  lemma InboundKeepsConnection(hub: Repo, vault: Repo, report: SyncReport, run: Run)
    requires Connected(vault)
    ensures Connected(InboundOf(hub, vault, report, run).vault)
  {
    FetchIsConnected(vault, BundleMain(hub), HUB_REF);
    AbandonKeepsConnection(Fetch(vault, BundleMain(hub), HUB_REF), HUB_REF, run.resolveVault,
                           VaultMergeRefused in run.faults, AbortVaultMerge in run.faults);
  }

  lemma SnapshotKeepsHistory(vault: Repo, run: Run)
    ensures var s := SnapshotOf(vault, run);
            && KeepsHistory(vault, s.vault) && s.vault.torio == vault.torio && s.vault.hasRemote == vault.hasRemote
            && (s.err.None? ==> !Dirty(s.vault))
            && (Connected(vault) ==> Connected(s.vault))
  {
    CommitExtendsMain(vault, run.content);
    if Connected(vault) {
      CommitAllExtends(vault, run.content);
    }
  }

  // The stages of a run that got as far as taking its snapshot.
  ghost predicate Begun(run: Run) {
    FirstFailure(INSPECT, run).None? && run.health == Initialized && MakeHostStaging !in run.faults
  }

  ghost function Sent(hub: Option<Repo>, vault: Repo, run: Run): Outbound {
    var snap := SnapshotOf(vault, run);
    OutboundOf(hub, snap.vault, EMPTY_REPORT.(snapshotted := snap.taken), run)
  }

  lemma SyncInStages(hub: Option<Repo>, vault: Repo, run: Run)
    ensures var s := SyncOf(hub, vault, run); var snap := SnapshotOf(vault, run); var out := Sent(hub, vault, run);
            if !Begun(run) || snap.err.Some? then s.hub == hub && s.vault == vault
            else && s.hub == out.hub
                 && s.vault == if out.err.Some? then snap.vault
                               else InboundOf(out.hub.value, snap.vault, out.report, run).vault
  {
  }

  lemma SyncKeepsHistory(hub: Option<Repo>, vault: Repo, run: Run)
    ensures var s := SyncOf(hub, vault, run);
            && KeepsHistory(vault, s.vault) && s.vault.hasRemote == vault.hasRemote
            && (hub.Some? ==> s.hub.Some? && KeepsHistory(hub.value, s.hub.value)
                              && s.hub.value.hasRemote == hub.value.hasRemote)
  {
    if Begun(run) {
      SnapshotKeepsHistory(vault, run);
      var snap := SnapshotOf(vault, run);
      var out := Sent(hub, vault, run);
      if hub.Some? {
        OutboundKeepsHistory(hub.value, snap.vault, EMPTY_REPORT.(snapshotted := snap.taken), run);
      }
      if out.err.None? {
        InboundKeepsHistory(out.hub.value, snap.vault, out.report, run);
        AncestryIsTransitive(snap.vault.main, InboundOf(out.hub.value, snap.vault, out.report, run).vault.main);
      }
    }
  }

  lemma SyncKeepsConnection(hub: Option<Repo>, vault: Repo, run: Run)
    requires BothConnected(hub, vault)
    ensures BothConnected(SyncOf(hub, vault, run).hub, SyncOf(hub, vault, run).vault)
  {
    if Begun(run) {
      SnapshotKeepsHistory(vault, run);
      var snap := SnapshotOf(vault, run);
      var out := Sent(hub, vault, run);
      OutboundKeepsConnection(hub, snap.vault, EMPTY_REPORT.(snapshotted := snap.taken), run);
      if out.err.None? {
        InboundKeepsConnection(out.hub.value, snap.vault, out.report, run);
      }
    }
  }

  lemma SyncKeepsHubRef(hub: Option<Repo>, vault: Repo, run: Run)
    requires HubRefBehindHub(hub, vault)
    ensures HubRefBehindHub(SyncOf(hub, vault, run).hub, SyncOf(hub, vault, run).vault)
  {
    if Begun(run) {
      SnapshotKeepsHistory(vault, run);
      var snap := SnapshotOf(vault, run);
      var out := Sent(hub, vault, run);
      if hub.Some? {
        OutboundKeepsHistory(hub.value, snap.vault, EMPTY_REPORT.(snapshotted := snap.taken), run);
        AncestryIsTransitive(hub.value.main, out.hub.value.main);
      }
      if out.err.None? {
        InboundKeepsHistory(out.hub.value, snap.vault, out.report, run);
      }
    }
  }

  /** Whatever fails and wherever the run stops, neither side loses a commit it could
      reach, no history has a hole in it, and the vault's view of the hub is real. */
  lemma SyncLosesNoHistory(hub: Option<Repo>, vault: Repo, run: Run)
    ensures var s := SyncOf(hub, vault, run);
            && Ancestors(vault.main) <= Ancestors(s.vault.main)
            && (hub.Some? ==> s.hub.Some? && Ancestors(hub.value.main) <= Ancestors(s.hub.value.main))
            && (BothConnected(hub, vault) ==> BothConnected(s.hub, s.vault))
            && (HubRefBehindHub(hub, vault) ==> HubRefBehindHub(s.hub, s.vault))
  {
    SyncKeepsHistory(hub, vault, run);
    KeepsHistoryMeaning(vault, SyncOf(hub, vault, run).vault);
    if hub.Some? {
      KeepsHistoryMeaning(hub.value, SyncOf(hub, vault, run).hub.value);
    }
    if BothConnected(hub, vault) {
      SyncKeepsConnection(hub, vault, run);
    }
    if HubRefBehindHub(hub, vault) {
      SyncKeepsHubRef(hub, vault, run);
    }
  }

  // What reconciling with a hub that was already there did to it.
  lemma ReconcileOutcome(hub: Repo, vault: Repo, report: SyncReport, run: Run)
    requires ReconcileHub(hub, vault, report, run).err.None? && !report.conflictOutbound
    ensures var o := ReconcileHub(hub, vault, report, run);
            && (o.report.conflictOutbound ==> o.hub.value.main == hub.main && o.report.toHub == report.toHub)
            && (!o.report.conflictOutbound ==>
                  && vault.main in Ancestors(o.hub.value.main)
                  && o.report == (if vault.main in Ancestors(hub.main) then report
                                  else report.(toHub := CountRange(hub.main, vault.main))))
            && (vault.main in Ancestors(hub.main) ==> o.hub.value.main == hub.main && !o.report.conflictOutbound)
            && o.report == report.(toHub := o.report.toHub, conflictOutbound := o.report.conflictOutbound, notes := o.report.notes)
  {
    CountRangeIsZeroExactlyWhenReachable(hub.main, vault.main);
    HubMergeKeepsHistory(Fetch(hub, BundleMain(vault), run.name), vault.main, run);
  }

  lemma OutboundSettled(hub: Option<Repo>, vault: Repo, report: SyncReport, run: Run)
    requires OutboundOf(hub, vault, report, run).err.None? && !report.hubCreated
    ensures var out := OutboundOf(hub, vault, report, run);
            match hub
            case None => out == Outbound(Some(Clone(BundleMain(vault)).(hasRemote := false)), report.(hubCreated := true), None)
            case Some(there) => out == ReconcileHub(there, vault, report, run)
  {
    assert report.(hubCreated := false) == report;
  }

  lemma SettledStages(hub: Option<Repo>, vault: Repo, run: Run)
    requires SyncOf(hub, vault, run).err.None?
    ensures var snap := SnapshotOf(vault, run); var out := Sent(hub, vault, run);
            && snap.err.None? && out.err.None?
            && InboundOf(out.hub.value, snap.vault, out.report, run)
               == Inbound(SyncOf(hub, vault, run).vault, SyncOf(hub, vault, run).report, None)
            && SyncOf(hub, vault, run).hub == out.hub
  {
  }

  // The vault after its snapshot, the hub after the outbound half, and what has been
  // reported by then, for a run that failed nowhere.
  lemma SettledOutbound(hub: Option<Repo>, vault: Repo, run: Run)
    requires SyncOf(hub, vault, run).err.None?
    ensures var snap := SnapshotOf(vault, run); var out := Sent(hub, vault, run);
            && snap.err.None? && out.err.None? && !Dirty(snap.vault) && KeepsHistory(vault, snap.vault)
            && InboundOf(out.hub.value, snap.vault, out.report, run)
               == Inbound(SyncOf(hub, vault, run).vault, SyncOf(hub, vault, run).report, None)
            && SyncOf(hub, vault, run).hub == out.hub
            && out.report == EMPTY_REPORT.(snapshotted := snap.taken, hubCreated := hub.None?, toHub := out.report.toHub,
                                           conflictOutbound := out.report.conflictOutbound, notes := out.report.notes)
            && (hub.Some? ==> out == ReconcileHub(hub.value, snap.vault, EMPTY_REPORT.(snapshotted := snap.taken), run))
            && (hub.None? ==> out.hub == Some(Clone(BundleMain(snap.vault)).(hasRemote := false))
                              && out.report.toHub == 0 && !out.report.conflictOutbound)
  {
    SettledStages(hub, vault, run);
    var snap := SnapshotOf(vault, run);
    OutboundSettled(hub, snap.vault, EMPTY_REPORT.(snapshotted := snap.taken), run);
    assert !Dirty(snap.vault) && KeepsHistory(vault, snap.vault) by { SnapshotKeepsHistory(vault, run); }
    if hub.Some? {
      ReconcileOutcome(hub.value, snap.vault, EMPTY_REPORT.(snapshotted := snap.taken), run);
    }
  }

  // A vault whose history the hub already has only ever moves forward to the hub.
  lemma InboundFastForwards(hub: Repo, vault: Repo, report: SyncReport, run: Run)
    requires vault.main in Ancestors(hub.main) && vault.mergeHead.None?
    requires InboundOf(hub, vault, report, run).err.None?
    ensures var i := InboundOf(hub, vault, report, run);
            && i.vault == Fetch(vault, BundleMain(hub), HUB_REF).(main := hub.main)
            && i.report == (if vault.main == hub.main then report else report.(toGuest := CountRange(vault.main, hub.main)))
  {
    var fetched := Fetch(vault, BundleMain(hub), HUB_REF);
    CountRangeIsZeroExactlyWhenReachable(vault.main, hub.main);
    if hub.main in Ancestors(vault.main) {
      AncestryIsAntisymmetric(hub.main, vault.main);
    }
    MergeOfDescendantFastForwards(fetched, hub.main, run.resolveVault);
  }

  // What arrives in a vault when its side of the reconciliation does not conflict.
  lemma InboundCounts(hub: Repo, vault: Repo, report: SyncReport, run: Run)
    requires InboundOf(hub, vault, report, run).err.None?
    requires report.toGuest == 0 && !report.conflictInbound
    ensures var i := InboundOf(hub, vault, report, run);
            && i.report.toGuest == (if i.report.conflictInbound then 0 else CountRange(vault.main, hub.main))
            && i.report == report.(toGuest := i.report.toGuest, conflictInbound := i.report.conflictInbound, notes := i.report.notes)
  {
    var behind := CountRange(vault.main, hub.main);
    if FirstFailure(CARRY_IN, run).None? && CountCarriedHub !in run.faults && behind > 0 {
      InboundAfterCounts(VaultMergeOf(Fetch(vault, BundleMain(hub), HUB_REF), hub.main, run), report, behind);
    }
  }

  lemma InboundAfterCounts(merge: MergeOutcome, report: SyncReport, behind: nat)
    requires report.toGuest == 0 && !report.conflictInbound && InboundAfter(merge, report, behind).err.None?
    ensures var i := InboundAfter(merge, report, behind).report;
            && i.toGuest == (if i.conflictInbound then 0 else behind)
            && i == report.(toGuest := i.toGuest, conflictInbound := i.conflictInbound, notes := i.notes)
  {
  }

  /** Once the hub has taken the vault's side, the way back cannot conflict: the vault
      ends at the hub's commit and stands at distance zero from it. */
  lemma InboundNeverConflictsAlone(hub: Option<Repo>, vault: Repo, run: Run)
    requires SyncOf(hub, vault, run).err.None?
    ensures var s := SyncOf(hub, vault, run);
            && (s.report.conflictInbound ==> s.report.conflictOutbound)
            && (!s.report.conflictOutbound ==>
                  && s.vault.main == s.hub.value.main
                  && HubDistance(s.vault) == Some((0, 0))
                  && !Dirty(s.vault)
                  && vault.main in Ancestors(s.hub.value.main))
  {
    SettledOutbound(hub, vault, run);
    var snap := SnapshotOf(vault, run);
    var out := Sent(hub, vault, run);
    if hub.Some? {
      ReconcileOutcome(hub.value, snap.vault, EMPTY_REPORT.(snapshotted := snap.taken), run);
    }
    InboundCounts(out.hub.value, snap.vault, out.report, run);
    if !out.report.conflictOutbound {
      InboundFastForwards(out.hub.value, snap.vault, out.report, run);
      CountRangeIsZeroExactlyWhenReachable(out.hub.value.main, out.hub.value.main);
      AncestryIsTransitive(snap.vault.main, out.hub.value.main);
    }
  }

  /** A direction that stops on a conflict leaves the hub's main where it was; it leaves
      the whole hub as the fetch left it exactly when no merge was unfinished there. */
  lemma StoppedOutboundLeavesTheHub(hub: Repo, vault: Repo, report: SyncReport, run: Run)
    requires !report.conflictOutbound
    requires OutboundOf(Some(hub), vault, report, run).report.conflictOutbound
    ensures var after := OutboundOf(Some(hub), vault, report, run).hub.value;
            var fetched := Fetch(hub, BundleMain(vault), run.name);
            && after == fetched.(mergeHead := None)
            && (after == fetched <==> hub.mergeHead.None?)
  {
    HubMergeKeepsHistory(Fetch(hub, BundleMain(vault), run.name), vault.main, run);
  }

  // Three commits without parents: the hub's, the operator's other side, and a vault's.
  const HUB_SIDE := Commit([], 1)
  const OTHER_SIDE := Commit([], 2)
  const VAULT_SIDE := Commit([], 3)

  const MERGING_HUB := Repo({HUB_SIDE, OTHER_SIDE}, HUB_SIDE, map[], Some(OTHER_SIDE), false, false)
  const OTHER_VAULT := Repo({VAULT_SIDE}, VAULT_SIDE, map[], None, false, false)

  lemma {:induction false} NothingFails(plan: seq<(SyncStep, Kind)>, run: Run)
    requires run.faults == {}
    ensures FirstFailure(plan, run) == None
  {
    if plan != [] { NothingFails(plan[1..], run); }
  }

  /** It happens: the operator's unfinished merge in the hub is gone after a run that
      reports no more than a conflict, whatever the box is called. */
  lemma OperatorsMergeIsAborted(name: string)
    ensures var run := Run(name, Initialized, {}, 0, (_, _) => None, (_, _) => None);
            var s := SyncOf(Some(MERGING_HUB), OTHER_VAULT, run);
            && MERGING_HUB.mergeHead == Some(OTHER_SIDE) && Connected(MERGING_HUB) && Connected(OTHER_VAULT)
            && s.err.None? && s.report.conflictOutbound
            && s.hub == Some(Fetch(MERGING_HUB, BundleMain(OTHER_VAULT), name).(mergeHead := None))
  {
    var run := Run(name, Initialized, {}, 0, (_, _) => None, (_, _) => None);
    assert Ancestors(HUB_SIDE) == {HUB_SIDE} && Ancestors(OTHER_SIDE) == {OTHER_SIDE} && Ancestors(VAULT_SIDE) == {VAULT_SIDE};
    CountRangeIsZeroExactlyWhenReachable(HUB_SIDE, VAULT_SIDE);
    CountRangeIsZeroExactlyWhenReachable(VAULT_SIDE, HUB_SIDE);
    NothingFails(INSPECT, run);
    NothingFails(CARRY_OUT, run);
    NothingFails(READ_CARRIED, run);
    NothingFails(CARRY_IN, run);
    StoppedOutboundLeavesTheHub(MERGING_HUB, OTHER_VAULT, EMPTY_REPORT, run);
  }

  /** After a run without an outbound conflict the vault's own description of its distance
      to the hub is zero both ways. */
  method SyncAndDescribe(m: Manager, run: Run) returns (err: Option<Kind>, distance: Option<(nat, nat)>)
    modifies m
    ensures Synced(m.hub, m.vault, m.report, err) == SyncOf(old(m.hub), old(m.vault), run)
    ensures err.None? && !m.report.conflictOutbound ==> distance == Some((0, 0)) && m.vault.main == m.hub.value.main
  {
    if SyncOf(m.hub, m.vault, run).err.None? { InboundNeverConflictsAlone(m.hub, m.vault, run); }
    err := m.Sync(run);
    distance := m.DescribeHubDistance();
  }

  /** The counts are exact. What arrives in the vault is what the hub had and the vault
      lacked, and one commit more exactly when the hub had to join two histories. */
  lemma ReportedCountsAreExact(hub: Repo, vault: Repo, run: Run)
    requires SyncOf(Some(hub), vault, run).err.None?
    ensures var s := SyncOf(Some(hub), vault, run);
            var mine := SnapshotOf(vault, run).vault.main;
            var bothMoved := mine !in Ancestors(hub.main) && hub.main !in Ancestors(mine);
            && s.report.toHub == (if s.report.conflictOutbound then 0 else CountRange(hub.main, mine))
            && s.report.toGuest == (if s.report.conflictInbound then 0
                                    else CountRange(mine, hub.main) + if bothMoved && !s.report.conflictOutbound then 1 else 0)
  {
    SettledOutbound(Some(hub), vault, run);
    var snap := SnapshotOf(vault, run);
    var out := Sent(Some(hub), vault, run);
    var report := EMPTY_REPORT.(snapshotted := snap.taken);
    ReconcileOutcome(hub, snap.vault, report, run);
    InboundCounts(out.hub.value, snap.vault, out.report, run);
    CountRangeIsZeroExactlyWhenReachable(hub.main, snap.vault.main);
    if !out.report.conflictOutbound {
      JoinedHubCounts(hub, snap.vault, report, run);
    }
  }

  // Where main ends when a commit is merged into it.
  function Joined(main: Commit, other: Commit, resolve: Resolver): Commit {
    if other in Ancestors(main) then main
    else if main in Ancestors(other) then other
    else match resolve(main, other)
      case Some(content) => Commit([main, other], content)
      case None => main
  }

  lemma HubMergeMain(hub: Repo, target: Commit, run: Run)
    requires HubMergeOf(hub, target, run).Merged?
    ensures HubMergeOf(hub, target, run).repo.main == Joined(hub.main, target, run.resolveHub)
    ensures target in Ancestors(hub.main) || hub.main in Ancestors(target) || run.resolveHub(hub.main, target).Some?
  {
  }

  lemma ReconcileMain(hub: Repo, vault: Repo, report: SyncReport, run: Run)
    requires !report.conflictOutbound
    requires var o := ReconcileHub(hub, vault, report, run); o.err.None? && !o.report.conflictOutbound
    ensures ReconcileHub(hub, vault, report, run).hub.value.main == Joined(hub.main, vault.main, run.resolveHub)
    ensures vault.main in Ancestors(hub.main) || hub.main in Ancestors(vault.main) || run.resolveHub(hub.main, vault.main).Some?
  {
    CountRangeIsZeroExactlyWhenReachable(hub.main, vault.main);
    var fetched := Fetch(hub, BundleMain(vault), run.name);
    if HubMergeOf(fetched, vault.main, run).Merged? {
      HubMergeMain(fetched, vault.main, run);
    }
  }

  lemma JoinedHubCounts(hub: Repo, vault: Repo, report: SyncReport, run: Run)
    requires !report.conflictOutbound
    requires var o := ReconcileHub(hub, vault, report, run); o.err.None? && !o.report.conflictOutbound
    ensures var joined := ReconcileHub(hub, vault, report, run).hub.value.main;
            var bothMoved := vault.main !in Ancestors(hub.main) && hub.main !in Ancestors(vault.main);
            CountRange(vault.main, joined) == CountRange(vault.main, hub.main) + if bothMoved then 1 else 0
  {
    ReconcileMain(hub, vault, report, run);
    CountRangeIsZeroExactlyWhenReachable(vault.main, hub.main);
    CountRangeIsZeroExactlyWhenReachable(vault.main, vault.main);
    if vault.main !in Ancestors(hub.main) && hub.main !in Ancestors(vault.main) {
      JoinCountsOneMore(hub.main, vault.main, run.resolveHub(hub.main, vault.main).value);
    }
  }

  lemma JoinCountsOneMore(left: Commit, right: Commit, content: nat)
    ensures CountRange(right, Commit([left, right], content)) == CountRange(right, left) + 1
  {
    AncestorsOfJoin(left, right, content);
    var joined := Commit([left, right], content);
    assert Range(right, joined) == {joined} + Range(right, left);
    assert joined !in Range(right, left);
  }

  /** The run that makes the hub reports that it did, and carries every commit without
      counting one: nothing had to move in either direction. */
  lemma FirstSyncMakesTheHub(vault: Repo, run: Run)
    requires SyncOf(None, vault, run).err.None?
    ensures var s := SyncOf(None, vault, run);
            && s.report.hubCreated && s.report.toHub == 0 && s.report.toGuest == 0 && !s.report.Conflicted()
            && s.hub.value.main == s.vault.main == SnapshotOf(vault, run).vault.main
            && !s.hub.value.hasRemote
  {
    SettledOutbound(None, vault, run);
    var out := Sent(None, vault, run);
    InboundFastForwards(out.hub.value, SnapshotOf(vault, run).vault, out.report, run);
  }

  /** "No vault holds a remote" is kept by every run except one: the run that makes the
      hub and cannot detach it. No later run takes that remote away. */
  lemma RemoteAppearsExactlyWhenDetachFails(hub: Option<Repo>, vault: Repo, run: Run)
    ensures var s := SyncOf(hub, vault, run);
            && s.vault.hasRemote == vault.hasRemote
            && (hub.Some? ==> s.hub.value.hasRemote == hub.value.hasRemote)
            && (hub.None? && s.hub.Some? ==> (s.hub.value.hasRemote <==> DetachHub in run.faults))
  {
    SyncKeepsHistory(hub, vault, run);
  }
}
