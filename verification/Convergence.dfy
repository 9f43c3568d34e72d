// Many boxes, one hub: any order of visits in which every box syncs, and then syncs
// once more, leaves all of them on one commit.

module Convergence {
  import opened Options
  import opened GitHistory
  import opened BrainSync
  import opened SyncLaws

  datatype World = World(hub: Option<Repo>, boxes: map<string, Repo>)

  // A sync of the box the run names. A run for a box that is not there does nothing.
  function Visit(w: World, run: Run): (after: World)
    ensures after.boxes.Keys == w.boxes.Keys
  {
    if run.name !in w.boxes then w
    else
      var s := SyncOf(w.hub, w.boxes[run.name], run);
      World(s.hub, w.boxes[run.name := s.vault])
  }

  function ReportOf(w: World, run: Run): SyncReport
    requires run.name in w.boxes
  {
    SyncOf(w.hub, w.boxes[run.name], run).report
  }

  function VisitAll(w: World, runs: seq<Run>): (after: World)
    ensures after.boxes.Keys == w.boxes.Keys
    decreases |runs|
  {
    if runs == [] then w else VisitAll(Visit(w, runs[0]), runs[1..])
  }

  // A run for a box that is there and ready, in which no command fails.
  predicate Undisturbed(names: set<string>, run: Run) {
    run.name in names && run.health == Initialized && run.faults == {}
  }

  predicate AllUndisturbed(names: set<string>, runs: seq<Run>) {
    forall i :: 0 <= i < |runs| ==> Undisturbed(names, runs[i])
  }

  // No visit of the pass stops on its way out to the hub.
  predicate NoConflict(w: World, runs: seq<Run>)
    requires AllUndisturbed(w.boxes.Keys, runs)
    decreases |runs|
  {
    runs == [] || (!ReportOf(w, runs[0]).conflictOutbound && NoConflict(Visit(w, runs[0]), runs[1..]))
  }

  predicate Visits(runs: seq<Run>, name: string) {
    exists i :: 0 <= i < |runs| && runs[i].name == name
  }

  predicate Covers(runs: seq<Run>, names: set<string>) {
    forall name <- names :: Visits(runs, name)
  }

  // The hub holds all the box has, and the box has nothing unsaved.
  predicate Contributed(w: World, name: string) {
    name in w.boxes && w.hub.Some? && w.boxes[name].main in Ancestors(w.hub.value.main) && !Dirty(w.boxes[name])
  }

  predicate Level(w: World, name: string) {
    Contributed(w, name) && w.boxes[name].main == w.hub.value.main
  }

  lemma NoFaultsOutbound(hub: Option<Repo>, vault: Repo, report: SyncReport, run: Run)
    requires run.faults == {}
    ensures OutboundOf(hub, vault, report, run).err.None?
  {
    NothingFails(CARRY_OUT, run);
    NothingFails(CREATE_HUB, run);
    NothingFails(READ_CARRIED, run);
    if hub.Some? {
      MergeJoinsBothSides(Fetch(hub.value, BundleMain(vault), run.name), vault.main, run.resolveHub);
    }
  }

  lemma NoFaultsInbound(hub: Repo, vault: Repo, report: SyncReport, run: Run)
    requires run.faults == {}
    ensures InboundOf(hub, vault, report, run).err.None?
  {
    NothingFails(CARRY_IN, run);
    MergeJoinsBothSides(Fetch(vault, BundleMain(hub), HUB_REF), hub.main, run.resolveVault);
  }

  lemma NoFaultsMeansNoError(hub: Option<Repo>, vault: Repo, run: Run)
    requires run.health == Initialized && run.faults == {}
    ensures SyncOf(hub, vault, run).err.None?
  {
    NothingFails(INSPECT, run);
    NothingFails(SNAPSHOT, run);
    var snap := SnapshotOf(vault, run);
    var out := Sent(hub, vault, run);
    NoFaultsOutbound(hub, snap.vault, EMPTY_REPORT.(snapshotted := snap.taken), run);
    NoFaultsInbound(out.hub.value, snap.vault, out.report, run);
  }

  // One visit: the box it visits has contributed and is level, the hub keeps its
  // history, and nobody else moves.
  lemma VisitSettles(w: World, run: Run)
    requires Undisturbed(w.boxes.Keys, run) && !ReportOf(w, run).conflictOutbound
    ensures var after := Visit(w, run);
            && Level(after, run.name)
            && w.boxes[run.name].main in Ancestors(after.hub.value.main)
            && (w.hub.Some? ==> w.hub.value.main in Ancestors(after.hub.value.main))
  {
    NoFaultsMeansNoError(w.hub, w.boxes[run.name], run);
    InboundNeverConflictsAlone(w.hub, w.boxes[run.name], run);
    SyncKeepsHistory(w.hub, w.boxes[run.name], run);
  }

  lemma VisitKeepsContribution(w: World, run: Run, name: string)
    requires Undisturbed(w.boxes.Keys, run) && !ReportOf(w, run).conflictOutbound
    requires Contributed(w, name)
    ensures Contributed(Visit(w, run), name)
  {
    VisitSettles(w, run);
    if name != run.name {
      AncestryIsTransitive(w.hub.value.main, Visit(w, run).hub.value.main);
    }
  }

  lemma {:induction false} PassKeepsHub(w: World, runs: seq<Run>)
    requires AllUndisturbed(w.boxes.Keys, runs) && NoConflict(w, runs) && w.hub.Some?
    ensures var after := VisitAll(w, runs);
            after.hub.Some? && w.hub.value.main in Ancestors(after.hub.value.main)
    decreases |runs|
  {
    if runs != [] {
      var next := Visit(w, runs[0]);
      VisitSettles(w, runs[0]);
      PassKeepsHub(next, runs[1..]);
      AncestryIsTransitive(next.hub.value.main, VisitAll(next, runs[1..]).hub.value.main);
    }
  }

  lemma {:induction false} PassKeepsContribution(w: World, runs: seq<Run>, name: string)
    requires AllUndisturbed(w.boxes.Keys, runs) && NoConflict(w, runs)
    requires Contributed(w, name)
    ensures Contributed(VisitAll(w, runs), name)
    decreases |runs|
  {
    if runs != [] {
      VisitKeepsContribution(w, runs[0], name);
      PassKeepsContribution(Visit(w, runs[0]), runs[1..], name);
    }
  }

  // After a pass that visits a box, the hub has all that box had when it began.
  lemma {:induction false} PassContributes(w: World, runs: seq<Run>, name: string)
    requires AllUndisturbed(w.boxes.Keys, runs) && NoConflict(w, runs)
    requires name in w.boxes && Visits(runs, name)
    ensures Contributed(VisitAll(w, runs), name)
    ensures w.boxes[name].main in Ancestors(VisitAll(w, runs).hub.value.main)
    decreases |runs|
  {
    var next := Visit(w, runs[0]);
    VisitSettles(w, runs[0]);
    if runs[0].name == name {
      PassKeepsHub(next, runs[1..]);
      PassKeepsContribution(next, runs[1..], name);
      AncestryIsTransitive(next.hub.value.main, VisitAll(next, runs[1..]).hub.value.main);
    } else {
      var i :| 0 <= i < |runs| && runs[i].name == name;
      assert runs[1..][i - 1].name == name;
      PassContributes(next, runs[1..], name);
    }
  }

  // Once a box has contributed, visiting it cannot conflict and cannot move the hub.
  lemma LaterVisit(w: World, run: Run)
    requires Undisturbed(w.boxes.Keys, run) && Contributed(w, run.name)
    ensures var after := Visit(w, run);
            && !ReportOf(w, run).conflictOutbound
            && after.hub.value.main == w.hub.value.main
            && (Level(w, run.name) ==> ReportOf(w, run) == EMPTY_REPORT)
  {
    var vault := w.boxes[run.name];
    NoFaultsMeansNoError(w.hub, vault, run);
    SettledOutbound(w.hub, vault, run);
    ReconcileOutcome(w.hub.value, vault, EMPTY_REPORT, run);
    var out := Sent(w.hub, vault, run);
    InboundFastForwards(out.hub.value, vault, out.report, run);
  }

  ghost predicate AllContributed(w: World) {
    w.hub.Some? && forall name <- w.boxes :: Contributed(w, name)
  }

  ghost predicate AllLevel(w: World) {
    w.hub.Some? && forall name <- w.boxes :: Level(w, name)
  }

  lemma LaterVisitKeepsAll(w: World, run: Run)
    requires AllContributed(w) && Undisturbed(w.boxes.Keys, run)
    ensures AllContributed(Visit(w, run))
  {
    LaterVisit(w, run);
    VisitSettles(w, run);
    forall name <- w.boxes
      ensures Contributed(Visit(w, run), name)
    {
      VisitKeepsContribution(w, run, name);
    }
  }

  lemma {:induction false} LaterPass(w: World, runs: seq<Run>)
    requires AllContributed(w) && AllUndisturbed(w.boxes.Keys, runs)
    ensures AllContributed(VisitAll(w, runs)) && VisitAll(w, runs).hub.value.main == w.hub.value.main
    decreases |runs|
  {
    if runs != [] {
      LaterVisit(w, runs[0]);
      LaterVisitKeepsAll(w, runs[0]);
      LaterPass(Visit(w, runs[0]), runs[1..]);
    }
  }

  lemma LaterVisitLevels(w: World, run: Run, name: string)
    requires AllContributed(w) && Undisturbed(w.boxes.Keys, run)
    requires Level(w, name) || run.name == name
    ensures Level(Visit(w, run), name)
  {
    LaterVisit(w, run);
    VisitSettles(w, run);
  }

  lemma {:induction false} LaterPassLevels(w: World, runs: seq<Run>, name: string)
    requires AllContributed(w) && AllUndisturbed(w.boxes.Keys, runs)
    requires name in w.boxes && (Level(w, name) || Visits(runs, name))
    ensures Level(VisitAll(w, runs), name)
    decreases |runs|
  {
    if runs != [] {
      LaterVisitKeepsAll(w, runs[0]);
      if Level(w, name) || runs[0].name == name {
        LaterVisitLevels(w, runs[0], name);
      } else {
        var i :| 0 <= i < |runs| && runs[i].name == name;
        assert runs[1..][i - 1].name == name;
      }
      LaterPassLevels(Visit(w, runs[0]), runs[1..], name);
    }
  }

  /** Every box syncs once and then once more, in any order: all end on one commit that
      reaches everything any box or the hub began with. */
  lemma TwoPassesConverge(w: World, first: seq<Run>, second: seq<Run>)
    requires w.boxes != map[]
    requires AllUndisturbed(w.boxes.Keys, first) && AllUndisturbed(w.boxes.Keys, second)
    requires Covers(first, w.boxes.Keys) && Covers(second, w.boxes.Keys)
    requires NoConflict(w, first)
    ensures var after := VisitAll(VisitAll(w, first), second);
            && AllLevel(after)
            && (forall name <- w.boxes :: Ancestors(w.boxes[name].main) <= Ancestors(after.hub.value.main))
            && (w.hub.Some? ==> Ancestors(w.hub.value.main) <= Ancestors(after.hub.value.main))
  {
    var mid := VisitAll(w, first);
    var after := VisitAll(mid, second);
    forall name <- w.boxes
      ensures Contributed(mid, name) && Ancestors(w.boxes[name].main) <= Ancestors(mid.hub.value.main)
    {
      PassContributes(w, first, name);
      AncestryIsTransitive(w.boxes[name].main, mid.hub.value.main);
    }
    var some :| some in w.boxes;
    assert Contributed(mid, some);
    LaterPass(mid, second);
    forall name <- w.boxes
      ensures Level(after, name)
    {
      LaterPassLevels(mid, second, name);
    }
    if w.hub.Some? {
      PassKeepsHub(w, first);
      AncestryIsTransitive(w.hub.value.main, after.hub.value.main);
    }
  }

  // The world a pass meets at its i-th visit.
  function At(w: World, runs: seq<Run>, i: nat): (before: World)
    requires i <= |runs|
    ensures before.boxes.Keys == w.boxes.Keys
  {
    VisitAll(w, runs[..i])
  }

  /** Where every box is level, further passes report nothing moved, at every visit, and
      leave every main where it is. */
  lemma {:induction false} FurtherPassesAreQuiet(w: World, runs: seq<Run>, i: nat)
    requires AllLevel(w) && AllUndisturbed(w.boxes.Keys, runs) && i <= |runs|
    ensures AllLevel(At(w, runs, i)) && At(w, runs, i).hub.value.main == w.hub.value.main
    ensures i < |runs| ==> ReportOf(At(w, runs, i), runs[i]) == EMPTY_REPORT
  {
    var front := runs[..i];
    LaterPass(w, front);
    forall name <- w.boxes
      ensures Level(At(w, runs, i), name)
    {
      LaterPassLevels(w, front, name);
    }
    if i < |runs| {
      LaterVisit(At(w, runs, i), runs[i]);
    }
  }
}
