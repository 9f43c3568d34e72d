// The sequential Sync is one run of the interleaved protocol, whatever fails in it, so
// everything proved of all interleavings is true of it among any other boxes' runs.

module SyncIsARun {
  import opened Options
  import opened GitHistory
  import opened BrainSync
  import opened Interleaving
  import opened SyncLaws

  predicate OnlyOf(actions: seq<Action>, name: string) {
    forall i :: 0 <= i < |actions| ==> (actions[i].Advance? || actions[i].Stop?) && actions[i].name == name
  }

  // Steps of one box alone lead from s to s'.
  ghost predicate Leads(s: State, s': State, name: string) {
    exists actions :: OnlyOf(actions, name) && Exec(s, actions) == s'
  }

  lemma {:induction false} ExecAppends(s: State, front: seq<Action>, back: seq<Action>)
    ensures Exec(s, front + back) == Exec(Exec(s, front), back)
    decreases |front|
  {
    if front == [] {
      assert front + back == back;
    } else {
      assert (front + back)[1..] == front[1..] + back;
      ExecAppends(Do(s, front[0]), front[1..], back);
    }
  }

  lemma LeadsTransitively(s: State, mid: State, end: State, name: string)
    requires Leads(s, mid, name) && Leads(mid, end, name)
    ensures Leads(s, end, name)
  {
    var front :| OnlyOf(front, name) && Exec(s, front) == mid;
    var back :| OnlyOf(back, name) && Exec(mid, back) == end;
    ExecAppends(s, front, back);
    assert OnlyOf(front + back, name);
  }

  lemma LeadsNowhere(s: State, name: string)
    ensures Leads(s, s, name)
  {
    assert OnlyOf([], name) && Exec(s, []) == s;
  }

  lemma LeadsOn(s: State, mid: State, name: string, choice: Choice)
    requires Leads(s, mid, name) && name in mid.boxes
    ensures Leads(s, Next(mid, name, choice), name)
  {
    var step := [Advance(name, choice)];
    assert Exec(mid, step) == Exec(Do(mid, step[0]), step[1..]);
    assert OnlyOf(step, name) && Exec(mid, step) == Next(mid, name, choice);
    LeadsTransitively(s, mid, Next(mid, name, choice), name);
  }

  // The state s with the hub and one box replaced.
  function Put(s: State, hub: Option<Repo>, name: string, vault: Repo, at: Progress): State {
    State(hub, s.boxes[name := Box(vault, at)])
  }

  // One command takes the replaced part from here to there.
  ghost predicate StepTo(s: State, name: string, choice: Choice, hub: Option<Repo>, vault: Repo, at: Progress,
                         hub': Option<Repo>, vault': Repo, at': Progress)
  {
    Next(Put(s, hub, name, vault, at), name, choice) == Put(s, hub', name, vault', at')
  }

  lemma PutAgain(s: State, hub: Option<Repo>, name: string, vault: Repo, at: Progress, box: Box)
    ensures With(Put(s, hub, name, vault, at), name, box) == Put(s, hub, name, box.vault, box.at)
  {
    assert s.boxes[name := Box(vault, at)][name := box] == s.boxes[name := box];
  }

  lemma LeadsByStep(start: State, s: State, name: string, choice: Choice, hub: Option<Repo>, vault: Repo, at: Progress,
                    hub': Option<Repo>, vault': Repo, at': Progress)
    requires Leads(start, Put(s, hub, name, vault, at), name)
    requires StepTo(s, name, choice, hub, vault, at, hub', vault', at')
    ensures Leads(start, Put(s, hub', name, vault', at'), name)
  {
    LeadsOn(start, Put(s, hub, name, vault, at), name, choice);
  }

  lemma LeadsToStop(start: State, s: State, name: string, hub: Option<Repo>, vault: Repo, at: Progress)
    requires Leads(start, Put(s, hub, name, vault, at), name)
    ensures Leads(start, Put(s, hub, name, vault, Idle), name)
  {
    var mid := Put(s, hub, name, vault, at);
    var step := [Stop(name)];
    PutAgain(s, hub, name, vault, at, Box(vault, Idle));
    assert Exec(mid, step) == Exec(Do(mid, step[0]), step[1..]);
    assert OnlyOf(step, name);
    LeadsTransitively(start, mid, Put(s, hub, name, vault, Idle), name);
  }

  // --- The steps, each once ---

  lemma StepCapture(s: State, name: string, choice: Choice, hub: Option<Repo>, vault: Repo)
    ensures StepTo(s, name, choice, hub, vault, Idle, hub, if Dirty(vault) then CommitAll(vault, choice.content) else vault, Captured)
  {
    PutAgain(s, hub, name, vault, Idle, Box(if Dirty(vault) then CommitAll(vault, choice.content) else vault, Captured));
  }

  lemma StepCarry(s: State, name: string, choice: Choice, hub: Option<Repo>, vault: Repo)
    ensures StepTo(s, name, choice, hub, vault, Captured, hub, vault, Carried(BundleMain(vault)))
  {
    PutAgain(s, hub, name, vault, Captured, Box(vault, Carried(BundleMain(vault))));
  }

  lemma StepLook(s: State, name: string, choice: Choice, hub: Option<Repo>, vault: Repo, bundle: Bundle)
    ensures StepTo(s, name, choice, hub, vault, Carried(bundle), hub, vault, if hub.Some? then SawHub(bundle) else SawNoHub(bundle))
  {
    PutAgain(s, hub, name, vault, Carried(bundle), Box(vault, if hub.Some? then SawHub(bundle) else SawNoHub(bundle)));
  }

  lemma StepClone(s: State, name: string, choice: Choice, vault: Repo, bundle: Bundle)
    ensures StepTo(s, name, choice, None, vault, SawNoHub(bundle), Some(Clone(bundle)), vault, Cloned)
    ensures StepTo(s, name, choice, Some(Clone(bundle)), vault, Cloned,
                   Some(Clone(bundle).(hasRemote := false)), vault, OutboundDone(false))
  {
    PutAgain(s, None, name, vault, SawNoHub(bundle), Box(vault, Cloned));
    PutAgain(s, Some(Clone(bundle)), name, vault, Cloned, Box(vault, OutboundDone(false)));
  }

  lemma StepFetch(s: State, name: string, choice: Choice, hub: Repo, vault: Repo, bundle: Bundle)
    ensures StepTo(s, name, choice, Some(hub), vault, SawHub(bundle), Some(Fetch(hub, bundle, name)), vault, Fetched)
  {
    PutAgain(s, Some(hub), name, vault, SawHub(bundle), Box(vault, Fetched));
  }

  lemma StepCount(s: State, name: string, choice: Choice, hub: Repo, vault: Repo)
    requires name in hub.torio
    ensures StepTo(s, name, choice, Some(hub), vault, Fetched, Some(hub), vault,
                   if CountRange(hub.main, hub.torio[name]) == 0 then OutboundDone(false) else MergingHub)
  {
    PutAgain(s, Some(hub), name, vault, Fetched,
             Box(vault, if CountRange(hub.main, hub.torio[name]) == 0 then OutboundDone(false) else MergingHub));
  }

  lemma StepMergeHub(s: State, name: string, choice: Choice, hub: Repo, vault: Repo)
    requires name in hub.torio
    ensures var m := Merge(hub, hub.torio[name], choice.resolve);
            StepTo(s, name, choice, Some(hub), vault, MergingHub, Some(m.repo), vault, if m.succeeded then OutboundDone(false) else AbortingHub)
  {
    var m := Merge(hub, hub.torio[name], choice.resolve);
    PutAgain(s, Some(hub), name, vault, MergingHub, Box(vault, if m.succeeded then OutboundDone(false) else AbortingHub));
  }

  lemma StepAbortHub(s: State, name: string, choice: Choice, hub: Repo, vault: Repo)
    requires hub.mergeHead.Some?
    ensures StepTo(s, name, choice, Some(hub), vault, AbortingHub, Some(hub.(mergeHead := None)), vault, OutboundDone(true))
  {
    PutAgain(s, Some(hub), name, vault, AbortingHub, Box(vault, OutboundDone(true)));
  }

  lemma StepCarryIn(s: State, name: string, choice: Choice, hub: Repo, vault: Repo, stopped: bool)
    ensures StepTo(s, name, choice, Some(hub), vault, OutboundDone(stopped), Some(hub), vault, CarriedIn(BundleMain(hub), stopped))
    ensures StepTo(s, name, choice, Some(hub), vault, CarriedIn(BundleMain(hub), stopped),
                   Some(hub), Fetch(vault, BundleMain(hub), HUB_REF), FetchedIn(stopped))
  {
    PutAgain(s, Some(hub), name, vault, OutboundDone(stopped), Box(vault, CarriedIn(BundleMain(hub), stopped)));
    PutAgain(s, Some(hub), name, vault, CarriedIn(BundleMain(hub), stopped),
             Box(Fetch(vault, BundleMain(hub), HUB_REF), FetchedIn(stopped)));
  }

  lemma StepCountIn(s: State, name: string, choice: Choice, hub: Option<Repo>, vault: Repo, stopped: bool)
    requires HUB_REF in vault.torio
    ensures StepTo(s, name, choice, hub, vault, FetchedIn(stopped), hub, vault,
                   if CountRange(vault.main, vault.torio[HUB_REF]) == 0 then Idle else MergingVault(stopped))
  {
    PutAgain(s, hub, name, vault, FetchedIn(stopped),
             Box(vault, if CountRange(vault.main, vault.torio[HUB_REF]) == 0 then Idle else MergingVault(stopped)));
  }

  lemma StepMergeVault(s: State, name: string, choice: Choice, hub: Option<Repo>, vault: Repo, stopped: bool)
    requires HUB_REF in vault.torio
    ensures var m := Merge(vault, vault.torio[HUB_REF], choice.resolve);
            StepTo(s, name, choice, hub, vault, MergingVault(stopped), hub, m.repo, if m.succeeded then Idle else AbortingVault(stopped))
  {
    var m := Merge(vault, vault.torio[HUB_REF], choice.resolve);
    PutAgain(s, hub, name, vault, MergingVault(stopped), Box(m.repo, if m.succeeded then Idle else AbortingVault(stopped)));
  }

  lemma StepAbortVault(s: State, name: string, choice: Choice, hub: Option<Repo>, vault: Repo, stopped: bool)
    requires vault.mergeHead.Some?
    ensures StepTo(s, name, choice, hub, vault, AbortingVault(stopped), hub, vault.(mergeHead := None), Idle)
  {
    PutAgain(s, hub, name, vault, AbortingVault(stopped), Box(vault.(mergeHead := None), Idle));
  }

  // --- The stages ---

  // What a merge that is made or abandoned leaves, by what the merge command did.
  lemma MergeOrAbandonCases(r: Repo, target: Commit, resolve: Resolver, refused: bool, abortFails: bool)
    ensures var m, merged := MergeOrAbandon(r, target, resolve, refused, abortFails), Merge(r, target, resolve);
            if refused && r.mergeHead.None? then m == Failed(r, GitFailure)
            else if merged.succeeded then m == Merged(merged.repo)
            else && merged.repo.mergeHead.Some?
                 && m == if abortFails then Failed(merged.repo, GitFailure) else Stopped(merged.repo.(mergeHead := None))
  {
  }

  lemma HubMergeLeads(start: State, s: State, hub: Repo, vault: Repo, run: Run)
    requires run.name in hub.torio
    requires Leads(start, Put(s, Some(hub), run.name, vault, MergingHub), run.name)
    ensures var m := HubMergeOf(hub, hub.torio[run.name], run);
            Leads(start, Put(s, Some(m.repo), run.name, vault, if m.Failed? then Idle else OutboundDone(m.Stopped?)), run.name)
  {
    var name, choice := run.name, Choice(run.content, run.resolveHub);
    var merged := Merge(hub, hub.torio[name], run.resolveHub);
    MergeOrAbandonCases(hub, hub.torio[name], run.resolveHub, HubMergeRefused in run.faults, AbortHubMerge in run.faults);
    if RunHubMerge in run.faults || (HubMergeRefused in run.faults && hub.mergeHead.None?) {
      LeadsToStop(start, s, name, Some(hub), vault, MergingHub);
    } else {
      StepMergeHub(s, name, choice, hub, vault);
      var at := if merged.succeeded then OutboundDone(false) else AbortingHub;
      LeadsByStep(start, s, name, choice, Some(hub), vault, MergingHub, Some(merged.repo), vault, at);
      if !merged.succeeded {
        HubAbortLeads(start, s, merged.repo, vault, run);
      }
    }
  }

  lemma HubAbortLeads(start: State, s: State, hub: Repo, vault: Repo, run: Run)
    requires hub.mergeHead.Some?
    requires Leads(start, Put(s, Some(hub), run.name, vault, AbortingHub), run.name)
    ensures Leads(start, Put(s, Some(hub), run.name, vault, Idle), run.name)
    ensures Leads(start, Put(s, Some(hub.(mergeHead := None)), run.name, vault, OutboundDone(true)), run.name)
  {
    var name, choice := run.name, Choice(run.content, run.resolveHub);
    LeadsToStop(start, s, name, Some(hub), vault, AbortingHub);
    StepAbortHub(s, name, choice, hub, vault);
    LeadsByStep(start, s, name, choice, Some(hub), vault, AbortingHub, Some(hub.(mergeHead := None)), vault, OutboundDone(true));
  }

  lemma ReconcileLeads(start: State, s: State, hub: Repo, vault: Repo, report: SyncReport, run: Run)
    requires !report.conflictOutbound
    requires Leads(start, Put(s, Some(hub), run.name, vault, SawHub(BundleMain(vault))), run.name)
    ensures var o := ReconcileHub(hub, vault, report, run);
            Leads(start, Put(s, o.hub, run.name, vault, if o.err.Some? then Idle else OutboundDone(o.report.conflictOutbound)), run.name)
  {
    var name, choice, bundle := run.name, Choice(run.content, run.resolveHub), BundleMain(vault);
    if FirstFailure(READ_CARRIED, run).Some? {
      LeadsToStop(start, s, name, Some(hub), vault, SawHub(bundle));
    } else {
      var fetched := Fetch(hub, bundle, name);
      StepFetch(s, name, choice, hub, vault, bundle);
      LeadsByStep(start, s, name, choice, Some(hub), vault, SawHub(bundle), Some(fetched), vault, Fetched);
      if CountCarried in run.faults {
        LeadsToStop(start, s, name, Some(fetched), vault, Fetched);
      } else {
        StepCount(s, name, choice, fetched, vault);
        if CountRange(fetched.main, fetched.torio[name]) == 0 {
          LeadsByStep(start, s, name, choice, Some(fetched), vault, Fetched, Some(fetched), vault, OutboundDone(false));
        } else {
          LeadsByStep(start, s, name, choice, Some(fetched), vault, Fetched, Some(fetched), vault, MergingHub);
          HubMergeLeads(start, s, fetched, vault, run);
        }
      }
    }
  }

  lemma CreateLeads(start: State, s: State, vault: Repo, run: Run)
    requires Leads(start, Put(s, None, run.name, vault, SawNoHub(BundleMain(vault))), run.name)
    ensures var made := EnsureHub(None, BundleMain(vault), run);
            Leads(start, Put(s, made.hub, run.name, vault, if made.err.Some? then Idle else OutboundDone(false)), run.name)
  {
    var name, choice, bundle := run.name, Choice(run.content, run.resolveHub), BundleMain(vault);
    var clone := Clone(bundle);
    if FirstFailure(CREATE_HUB, run).Some? {
      LeadsToStop(start, s, name, None, vault, SawNoHub(bundle));
    } else {
      StepClone(s, name, choice, vault, bundle);
      LeadsByStep(start, s, name, choice, None, vault, SawNoHub(bundle), Some(clone), vault, Cloned);
      LeadsToStop(start, s, name, Some(clone), vault, Cloned);
      LeadsByStep(start, s, name, choice, Some(clone), vault, Cloned, Some(clone.(hasRemote := false)), vault, OutboundDone(false));
    }
  }

  lemma OutboundLeads(start: State, s: State, hub: Option<Repo>, vault: Repo, report: SyncReport, run: Run)
    requires !report.conflictOutbound
    requires Leads(start, Put(s, hub, run.name, vault, Captured), run.name)
    ensures var o := OutboundOf(hub, vault, report, run);
            Leads(start, Put(s, o.hub, run.name, vault, if o.err.Some? then Idle else OutboundDone(o.report.conflictOutbound)), run.name)
  {
    var name, choice, bundle := run.name, Choice(run.content, run.resolveHub), BundleMain(vault);
    if FirstFailure(CARRY_OUT, run).Some? {
      LeadsToStop(start, s, name, hub, vault, Captured);
    } else {
      StepCarry(s, name, choice, hub, vault);
      LeadsByStep(start, s, name, choice, hub, vault, Captured, hub, vault, Carried(bundle));
      StepLook(s, name, choice, hub, vault, bundle);
      if hub.Some? {
        LeadsByStep(start, s, name, choice, hub, vault, Carried(bundle), hub, vault, SawHub(bundle));
        ReconcileLeads(start, s, hub.value, vault, report.(hubCreated := false), run);
      } else {
        LeadsByStep(start, s, name, choice, hub, vault, Carried(bundle), hub, vault, SawNoHub(bundle));
        CreateLeads(start, s, vault, run);
      }
    }
  }

  lemma VaultAbortLeads(start: State, s: State, hub: Option<Repo>, vault: Repo, stopped: bool, run: Run)
    requires vault.mergeHead.Some?
    requires Leads(start, Put(s, hub, run.name, vault, AbortingVault(stopped)), run.name)
    ensures Leads(start, Put(s, hub, run.name, vault, Idle), run.name)
    ensures Leads(start, Put(s, hub, run.name, vault.(mergeHead := None), Idle), run.name)
  {
    var name, choice := run.name, Choice(run.content, run.resolveVault);
    LeadsToStop(start, s, name, hub, vault, AbortingVault(stopped));
    StepAbortVault(s, name, choice, hub, vault, stopped);
    LeadsByStep(start, s, name, choice, hub, vault, AbortingVault(stopped), hub, vault.(mergeHead := None), Idle);
  }

  lemma VaultMergeLeads(start: State, s: State, hub: Option<Repo>, vault: Repo, stopped: bool, run: Run)
    requires HUB_REF in vault.torio
    requires Leads(start, Put(s, hub, run.name, vault, MergingVault(stopped)), run.name)
    ensures Leads(start, Put(s, hub, run.name, VaultMergeOf(vault, vault.torio[HUB_REF], run).repo, Idle), run.name)
  {
    var name, choice := run.name, Choice(run.content, run.resolveVault);
    var merged := Merge(vault, vault.torio[HUB_REF], run.resolveVault);
    MergeOrAbandonCases(vault, vault.torio[HUB_REF], run.resolveVault, VaultMergeRefused in run.faults,
                        AbortVaultMerge in run.faults);
    if RunVaultMerge in run.faults || (VaultMergeRefused in run.faults && vault.mergeHead.None?) {
      LeadsToStop(start, s, name, hub, vault, MergingVault(stopped));
    } else {
      StepMergeVault(s, name, choice, hub, vault, stopped);
      var at := if merged.succeeded then Idle else AbortingVault(stopped);
      LeadsByStep(start, s, name, choice, hub, vault, MergingVault(stopped), hub, merged.repo, at);
      if !merged.succeeded {
        VaultAbortLeads(start, s, hub, merged.repo, stopped, run);
      }
    }
  }

  lemma InboundLeads(start: State, s: State, hub: Repo, vault: Repo, stopped: bool, report: SyncReport, run: Run)
    requires Leads(start, Put(s, Some(hub), run.name, vault, OutboundDone(stopped)), run.name)
    ensures Leads(start, Put(s, Some(hub), run.name, InboundOf(hub, vault, report, run).vault, Idle), run.name)
  {
    var name, choice := run.name, Choice(run.content, run.resolveVault);
    if FirstFailure(CARRY_IN, run).Some? {
      LeadsToStop(start, s, name, Some(hub), vault, OutboundDone(stopped));
    } else {
      var fetched := Fetch(vault, BundleMain(hub), HUB_REF);
      StepCarryIn(s, name, choice, hub, vault, stopped);
      LeadsByStep(start, s, name, choice, Some(hub), vault, OutboundDone(stopped), Some(hub), vault, CarriedIn(BundleMain(hub), stopped));
      LeadsByStep(start, s, name, choice, Some(hub), vault, CarriedIn(BundleMain(hub), stopped), Some(hub), fetched, FetchedIn(stopped));
      if CountCarriedHub in run.faults {
        LeadsToStop(start, s, name, Some(hub), fetched, FetchedIn(stopped));
      } else {
        StepCountIn(s, name, choice, Some(hub), fetched, stopped);
        if CountRange(fetched.main, fetched.torio[HUB_REF]) == 0 {
          LeadsByStep(start, s, name, choice, Some(hub), fetched, FetchedIn(stopped), Some(hub), fetched, Idle);
        } else {
          LeadsByStep(start, s, name, choice, Some(hub), fetched, FetchedIn(stopped), Some(hub), fetched, MergingVault(stopped));
          VaultMergeLeads(start, s, Some(hub), fetched, stopped, run);
        }
      }
    }
  }

  // The state with one box's sequential Sync done in it.
  function AfterSync(s: State, run: Run): State
    requires run.name in s.boxes
  {
    var synced := SyncOf(s.hub, s.boxes[run.name].vault, run);
    Put(s, synced.hub, run.name, synced.vault, Idle)
  }

  /** Whatever fails in it, a sequential Sync leaves exactly what some run of the protocol
      by its box alone leaves. */
  lemma SyncIsAnInterleaving(s: State, run: Run)
    requires run.name in s.boxes && s.boxes[run.name].at == Idle
    ensures Leads(s, AfterSync(s, run), run.name)
  {
    var name, vault := run.name, s.boxes[run.name].vault;
    LeadsNowhere(s, name);
    assert s == Put(s, s.hub, name, vault, Idle);
    SyncInStages(s.hub, vault, run);
    var snap := SnapshotOf(vault, run);
    if Begun(run) && snap.err.None? {
      var choice := Choice(run.content, run.resolveHub);
      StepCapture(s, name, choice, s.hub, vault);
      LeadsByStep(s, s, name, choice, s.hub, vault, Idle, s.hub, snap.vault, Captured);
      StagesLead(s, snap, run);
    }
  }

  lemma StagesLead(s: State, snap: Snapshot, run: Run)
    requires run.name in s.boxes && snap == SnapshotOf(s.boxes[run.name].vault, run)
    requires Leads(s, Put(s, s.hub, run.name, snap.vault, Captured), run.name)
    ensures var out := Sent(s.hub, s.boxes[run.name].vault, run);
            Leads(s, Put(s, out.hub, run.name, if out.err.Some? then snap.vault
                         else InboundOf(out.hub.value, snap.vault, out.report, run).vault, Idle), run.name)
  {
    var report := EMPTY_REPORT.(snapshotted := snap.taken);
    var out := Sent(s.hub, s.boxes[run.name].vault, run);
    OutboundLeads(s, s, s.hub, snap.vault, report, run);
    if out.err.None? {
      InboundLeads(s, s, out.hub.value, snap.vault, out.report.conflictOutbound, out.report, run);
    }
  }
}
